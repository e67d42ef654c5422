/**
 * NetworkUtils: the engine that drives netd.  Its fields are the process-wide
 * globals of the source (the command queue, the pending flag, the current
 * callback, chain and command, the gathered reasons), the static retry counter
 * of the USB poller, the property store, the SDK >= 16 flag read at
 * construction, and the output: every command handed to the transport and every
 * result posted to the main thread, in order.
 */
module Engine {
  import opened Wrappers
  import opened CText
  import opened Helpers
  import opened Protocol
  import opened Params
  import opened Steps
  import opened Chain
  import opened Properties
  import opened Usb
  import opened Dispatch
  import opened Requests

  /** The result a synchronous request is answered with, after whatever its method produced. */
  function RetPost(o: NetworkParams, d: DispatchState): DispatchState
  {
    if o.isAsync then d else PostTo(d, RetResult(o))
  }

  class NetworkUtils {
    var queue: seq<Entry>
    var pending: bool
    var callbackSet: bool
    var current: CommandChain?
    var currentCommand: string
    var reasons: seq<string>
    var log: seq<Output>
    var props: Props
    /** checkUsbRndisState's static retry counter. */
    var retry: nat
    /** SDK_VERSION >= 16: the dialect with sequence numbers and reasons. */
    const jb: bool
    /** The number of final replies that answered a pending command. */
    ghost var answered: nat

    function State(): DispatchState
      reads this`queue, this`pending, this`callbackSet, this`current, this`currentCommand, this`reasons, this`log
    {
      DispatchState(queue, pending, callbackSet, current, currentCommand, reasons, log)
    }

    /** Between two events: at most one command outstanding, no stalled queue, and the poller reset. */
    ghost predicate Valid()
      reads this
    {
      Steady(State(), answered) && retry == 0
    }

    /**
     * The constructor: the dialect comes from ro.build.version.sdk, read with
     * atoi into an unsigned 32-bit variable, so a negative value wraps to a
     * large one and selects the SDK >= 16 dialect.
     */
    constructor(store: Props)
      ensures jb == (ToUint32(Atoi(PropertyGet(store, "ro.build.version.sdk", ""))) >= 16)
      ensures props == store && State() == Initial && answered == 0
      ensures Valid()
    {
      jb := ToUint32(Atoi(PropertyGet(store, "ro.build.version.sdk", ""))) >= 16;
      queue := [];
      pending := false;
      callbackSet := false;
      current := null;
      currentCommand := "";
      reasons := [];
      log := [];
      props := store;
      retry := 0;
      answered := 0;
      new;
      InitialSteady();
    }

    // -------------------------------------------------------------------------
    // the dispatch queue
    // -------------------------------------------------------------------------

    /** nextNetdCommand. */
    method NextNetdCommand()
      modifies this
      ensures State() == Drain(old(State()))
      ensures props == old(props) && retry == old(retry) && answered == old(answered)
    {
      if queue == [] || pending {
        return;
      }
      var data := queue[0];
      queue := queue[1..];
      currentCommand := data.command.data;
      callbackSet := true;
      current := data.chain;
      pending := true;
      log := log + [Sent(data.command)];
    }

    /** doCommand: format the command for the dialect, queue it, try to send. */
    method DoCommand(command: string, chain: CommandChain)
      modifies this
      ensures State() == Drain(Enqueue(old(State()), Entry(Wire(command, jb), chain)))
      ensures props == old(props) && retry == old(retry) && answered == old(answered)
    {
      var netdCommand := if jb then NetdCommand("0 " + command, |"0 " + command| + 1)
                         else NetdCommand(command, |command| + 1);
      queue := queue + [Entry(netdCommand, chain)];
      NextNetdCommand();
    }

    /** postMessage. */
    method PostMessage(r: NetworkResult)
      modifies this
      ensures State() == PostTo(old(State()), r)
      ensures props == old(props) && retry == old(retry) && answered == old(answered)
    {
      log := log + [Posted(r)];
    }

    /** sendBroadcastMessage. */
    method SendBroadcastMessage(code: uint32)
      modifies this
      ensures State() == PostBroadcast(old(State()), code)
      ensures props == old(props) && retry == old(retry) && answered == old(answered)
    {
      var topic := BroadcastTopic(code);
      if topic.None? {
        return;
      }
      PostMessage(BroadcastResult(topic.value));
    }

    // -------------------------------------------------------------------------
    // the trampoline
    // -------------------------------------------------------------------------

    /**
     * next: on error run the chain's handler, if any, with mError set, and delete
     * the chain; otherwise fetch the next step and run it.  A step that skips
     * calls back at once; one that issues a command waits for its reply.
     * `rollback` is the chain a tethering handler starts.
     */
    method Next(chain: CommandChain, err: bool, r: NetworkResult) returns (ghost rollback: CommandChain?)
      requires !chain.deleted
      modifies this, chain
      decreases if err then 3 else 0, if err || chain.index >= |chain.commands| then 0 else |chain.commands| - chain.index, 1
      ensures Effect(State(), props, chain.index, chain.params, chain.deleted)
              == NextSpec(old(State()), old(props), chain, old(chain.index), old(chain.params), err, r, jb, rollback)
      ensures retry == old(retry) && answered == old(answered)
      ensures rollback == null <==>
        !err || chain.onError.None?
        || FailAction(chain.onError.value, old(chain.params), r.(error := Some(true))).rollback.None?
      ensures rollback != null ==>
        && fresh(rollback) && !rollback.deleted && rollback.onError.None?
        && rollback.commands == RollbackTable(chain.onError.value)
        && rollback.index == 0
        && rollback.params == FailAction(chain.onError.value, old(chain.params), r.(error := Some(true))).rollback.value
    {
      if err {
        rollback := null;
        if chain.onError.Some? {
          rollback := OnError(chain, r);
        }
        chain.deleted := true;
      } else {
        Proceed(chain, r);
        rollback := null;
      }
    }

    /** The success half of next: fetch the next step and run it. */
    method Proceed(chain: CommandChain, r: NetworkResult)
      requires !chain.deleted
      modifies this, chain
      decreases 0, if chain.index >= |chain.commands| then 0 else |chain.commands| - chain.index, 0
      ensures RunOutcome(State(), chain.index, chain.params, chain.deleted)
              == Run(old(State()), chain, chain.commands, old(chain.index), old(chain.params), r, jb)
      ensures props == old(props) && retry == old(retry) && answered == old(answered)
    {
      ghost var i0, p0 := chain.index, chain.params;
      var f := chain.GetNextCommand();
      if f.None? {
        assert Advance(chain.commands, i0, p0, r, jb) == Exhausted(chain.index);
        chain.deleted := true;
        return;
      }
      var step := f.value;
      assert step == chain.commands[chain.index];
      match StepAction(step, chain.params, r, jb)
      case Command(q, command) =>
        assert Advance(chain.commands, i0, p0, r, jb) == Issued(chain.index, q, command);
        chain.params := q;
        DoCommand(command, chain);
      case Skip(r2) =>
        assert Advance(chain.commands, i0, p0, r, jb) == Advance(chain.commands, chain.index, p0, r2, jb);
        ghost var rb := Next(chain, false, r2);
      case Finish(post) =>
        assert Advance(chain.commands, i0, p0, r, jb) == Finished(chain.index, post);
        PostMessage(post);
    }

    /**
     * The chain's error handler, called with the chain's own parameters (which it
     * may change) and the result marked with mError: it posts the failure, and a
     * tethering handler starts its rollback chain; the USB one then turns rndis off.
     */
    method OnError(chain: CommandChain, r: NetworkResult) returns (ghost rollback: CommandChain?)
      requires chain.onError.Some?
      modifies this, chain`params
      decreases 2, 0, 0
      ensures Effect(State(), props, chain.index, chain.params, true)
              == NextSpec(old(State()), old(props), chain, chain.index, old(chain.params), true, r, jb, rollback)
      ensures retry == old(retry) && answered == old(answered)
      ensures var f := FailAction(chain.onError.value, old(chain.params), r.(error := Some(true)));
        && (rollback == null <==> f.rollback.None?)
        && (rollback != null ==>
              && fresh(rollback) && !rollback.deleted && rollback.onError.None?
              && rollback.commands == RollbackTable(chain.onError.value)
              && rollback.index == 0 && rollback.params == f.rollback.value)
    {
      rollback := null;
      var h := chain.onError.value;
      var result := r.(error := Some(true));
      var f := FailAction(h, chain.params, result);
      PostMessage(f.post);
      chain.params := f.params;
      if f.rollback.Some? {
        var rb := RunChain(f.rollback.value, RollbackTable(h), None);
        RollbackStarts(h, f.rollback.value, EmptyResult, jb);
        rollback := rb;
      }
      if f.disableRndis {
        EnableUsbRndis(BlankParams.(enable := false, report := false), (k: nat) => "");
      }
    }

    /** RUN_CHAIN: copy the parameters into a new chain and call the trampoline with a fresh result. */
    method RunChain(p: NetworkParams, commands: seq<Step>, onError: Option<FailHandler>) returns (chain: CommandChain)
      modifies this
      decreases 1, 0, 0
      ensures fresh(chain) && chain.commands == commands && chain.onError == onError
      ensures RunOutcome(State(), chain.index, chain.params, chain.deleted)
              == Run(old(State()), chain, commands, -1, p, EmptyResult, jb)
      ensures props == old(props) && retry == old(retry) && answered == old(answered)
    {
      chain := new CommandChain(CopyParams(p), commands, onError);
      var result := EmptyResult;
      ghost var rb := Next(chain, false, result);
    }

    // -------------------------------------------------------------------------
    // replies from netd
    // -------------------------------------------------------------------------

    /**
     * onNetdMessage: a line without a token only tries the next send; a 6xx line
     * is broadcast and tries the next send; any other line is a reply.  The
     * current chain must still exist when a final reply for it arrives.
     */
    method OnNetdMessage(data: string) returns (ghost rollback: CommandChain?)
      requires Valid()
      requires var e := ParseReply(data, jb);
        e.Reply? && !IsProceeding(e.code) && callbackSet ==> current != null && !current.deleted
      modifies this, current
      ensures Valid()
      ensures var e := ParseReply(data, jb);
        && (e.NoCode? ==> State() == Drain(old(State())) && props == old(props))
        && (e.Broadcast? ==> State() == Drain(PostBroadcast(old(State()), e.code)) && props == old(props))
        && (e.Reply? && IsProceeding(e.code) ==>
              State() == old(State()).(reasons := old(reasons) + [e.reason]) && props == old(props))
        && (e.Reply? && !IsProceeding(e.code) && !old(callbackSet) ==>
              State() == Drain(old(State()).(reasons := old(reasons) + [e.reason], pending := false))
              && props == old(props))
      ensures var e := ParseReply(data, jb);
        e.Reply? && !IsProceeding(e.code) && old(callbackSet) ==>
          var eff := NextSpec(old(State()).(reasons := old(reasons) + [e.reason], pending := false), old(props),
                              old(current), old(current.index), old(current.params), IsError(e.code),
                              ReplyResult(e.code, old(reasons) + [e.reason]), jb, rollback);
          && State() == Drain(eff.state.(reasons := []))
          && props == eff.props
          && old(current).index == eff.index && old(current).params == eff.params
          && old(current).deleted == eff.deleted
      ensures var e := ParseReply(data, jb);
        rollback != null <==>
          && e.Reply? && !IsProceeding(e.code) && old(callbackSet) && IsError(e.code) && old(current).onError.Some?
          && FailAction(old(current).onError.value, old(current.params),
                        ReplyResult(e.code, old(reasons) + [e.reason]).(error := Some(true))).rollback.Some?
      ensures var e := ParseReply(data, jb);
        rollback != null ==>
          && e.Reply? && fresh(rollback) && !rollback.deleted && rollback.onError.None?
          && rollback.commands == RollbackTable(old(current).onError.value)
          && rollback.index == 0
          && rollback.params == FailAction(old(current).onError.value, old(current.params),
                                           ReplyResult(e.code, old(reasons) + [e.reason]).(error := Some(true))).rollback.value
    {
      rollback := null;
      var e := ParseReply(data, jb);
      ghost var d0 := State();
      match e {
        case NoCode =>
          NextNetdCommand();
          DrainKeeps(d0, answered);
        case Broadcast(code) =>
          SendBroadcastMessage(code);
          BroadcastKeeps(d0, code, answered);
          DrainKeeps(PostBroadcast(d0, code), answered);
          NextNetdCommand();
        case Reply(code, reason) =>
          rollback := OnReply(code, reason);
      }
    }

    /**
     * The reply half of onNetdMessage: gather the reason; a 1xx line stops there.
     * A final line ends the pending command and, when a callback was ever set,
     * runs the trampoline with the code, the joined reasons and the error flag,
     * then clears the reasons; then the next send is tried.
     */
    method OnReply(code: uint32, reason: string) returns (ghost rollback: CommandChain?)
      requires Valid()
      requires !IsProceeding(code) && callbackSet ==> current != null && !current.deleted
      modifies this, current
      ensures Valid()
      ensures IsProceeding(code) ==>
        State() == old(State()).(reasons := old(reasons) + [reason]) && props == old(props)
      ensures !IsProceeding(code) && !old(callbackSet) ==>
        State() == Drain(old(State()).(reasons := old(reasons) + [reason], pending := false)) && props == old(props)
      ensures !IsProceeding(code) && old(callbackSet) ==>
        var eff := NextSpec(old(State()).(reasons := old(reasons) + [reason], pending := false), old(props),
                            old(current), old(current.index), old(current.params), IsError(code),
                            ReplyResult(code, old(reasons) + [reason]), jb, rollback);
        && State() == Drain(eff.state.(reasons := []))
        && props == eff.props
        && old(current).index == eff.index && old(current).params == eff.params
        && old(current).deleted == eff.deleted
      ensures rollback != null <==>
        && !IsProceeding(code) && old(callbackSet) && IsError(code) && old(current).onError.Some?
        && FailAction(old(current).onError.value, old(current.params),
                      ReplyResult(code, old(reasons) + [reason]).(error := Some(true))).rollback.Some?
      ensures rollback != null ==>
        && fresh(rollback) && !rollback.deleted && rollback.onError.None?
        && rollback.commands == RollbackTable(old(current).onError.value)
        && rollback.index == 0
        && rollback.params == FailAction(old(current).onError.value, old(current.params),
                                         ReplyResult(code, old(reasons) + [reason]).(error := Some(true))).rollback.value
    {
      rollback := null;
      reasons := reasons + [reason];
      if IsProceeding(code) {
        return;
      }
      ClassifiersByHundreds(code);
      if IsComplete(code) {
        if pending {
          answered := answered + 1;
        }
        pending := false;
      }
      ghost var d1 := State();
      assert Balanced(d1, answered) && Wired(d1);
      if callbackSet {
        rollback := Callback(code);
      }
      ghost var d2 := State();
      assert Balanced(d2, answered) && Wired(d2) && retry == 0;
      DrainKeeps(d2, answered);
      if IsComplete(code) {
        NextNetdCommand();
      }
    }

    /**
     * The callback half of a final reply: the callback gets the current chain,
     * the error flag and the gathered reasons joined; then the reasons are cleared.
     */
    method Callback(code: uint32) returns (ghost rollback: CommandChain?)
      requires callbackSet && current != null && !current.deleted
      modifies this, current
      ensures var eff := NextSpec(old(State()), old(props), old(current), old(current.index), old(current.params),
                                  IsError(code), ReplyResult(code, old(reasons)), jb, rollback);
        && State() == eff.state.(reasons := [])
        && props == eff.props
        && old(current).index == eff.index && old(current).params == eff.params
        && old(current).deleted == eff.deleted
      ensures Balanced(old(State()), answered) ==> Balanced(State(), answered)
      ensures Wired(old(State())) ==> Wired(State())
      ensures retry == old(retry) && answered == old(answered)
      ensures rollback != null <==>
        && IsError(code) && old(current).onError.Some?
        && FailAction(old(current).onError.value, old(current.params),
                      ReplyResult(code, old(reasons)).(error := Some(true))).rollback.Some?
      ensures rollback != null ==>
        && fresh(rollback) && !rollback.deleted && rollback.onError.None?
        && rollback.commands == RollbackTable(old(current).onError.value)
        && rollback.index == 0
        && rollback.params == FailAction(old(current).onError.value, old(current.params),
                                         ReplyResult(code, old(reasons)).(error := Some(true))).rollback.value
    {
      ghost var d1 := State();
      var result := ReplyResult(code, reasons);
      rollback := Next(current, IsError(code), result);
      NextKeeps(d1, old(props), old(current), old(current.index), old(current.params), IsError(code),
                result, jb, rollback, answered);
      reasons := [];
    }

    // -------------------------------------------------------------------------
    // USB function switching
    // -------------------------------------------------------------------------

    /**
     * checkUsbRndisState: read sys.usb.state, split at commas and look for rndis
     * (samples(retry) is that reading, see RndisSamples); report success when
     * rndis presence is what was asked, else retry while the counter is below 20,
     * else report failure.  The counter is reset whenever a report is posted.
     */
    method CheckUsbRndisState(options: NetworkParams, samples: nat -> bool)
      modifies this
      decreases if retry < UsbFunctionRetryTimes then UsbFunctionRetryTimes - retry else 0
      ensures State() == PostTo(old(State()), PollReport(options, Poll(options.enable, samples, old(retry))))
      ensures retry == 0 && props == old(props) && answered == old(answered)
    {
      var rndisPresent := samples(retry);
      if options.enable == rndisPresent {
        assert Poll(options.enable, samples, retry) == Some(retry);
        PostMessage(PollReport(options, Some(retry)));
        retry := 0;
        return;
      }
      if retry < UsbFunctionRetryTimes {
        assert Poll(options.enable, samples, retry) == Poll(options.enable, samples, retry + 1);
        retry := retry + 1;
        CheckUsbRndisState(options, samples);
        return;
      }
      assert Poll(options.enable, samples, retry) == None;
      PostMessage(PollReport(options, None));
      retry := 0;
    }

    /**
     * enableUsbRndis: build the function list, write it to sys.usb.config when it
     * differs from the current value, and poll the state when a report is wanted.
     */
    method EnableUsbRndis(options: NetworkParams, observe: nat -> string)
      modifies this
      ensures props == UsbConfigUpdate(old(props), options.enable)
      ensures options.report ==>
        State() == PostTo(old(State()), PollReport(options, Poll(options.enable, RndisSamples(observe), old(retry))))
        && retry == 0
      ensures !options.report ==> State() == old(State()) && retry == old(retry)
      ensures answered == old(answered)
    {
      var report := options.report;
      var currentConfig := PropertyGet(props, SysUsbConfigProperty, "");
      var configFuncs := Split(currentConfig, UsbConfigDelimit);
      var persistConfig := PropertyGet(props, PersistSysUsbConfigProperty, "");
      var persistFuncs := Split(persistConfig, UsbConfigDelimit);
      if options.enable {
        configFuncs := [];
        configFuncs := configFuncs + [UsbFunctionRndis];
        if UsbFunctionAdb in persistFuncs {
          configFuncs := configFuncs + [UsbFunctionAdb];
        }
      } else {
        configFuncs := persistFuncs;
      }
      currentConfig := PropertyGet(props, SysUsbConfigProperty, "");
      var newConfig := Join(configFuncs, UsbConfigDelimit);
      assert configFuncs == UsbConfigFuncs(options.enable, persistConfig);
      if currentConfig != newConfig {
        props := props[SysUsbConfigProperty := newConfig];
      }
      if report {
        CheckUsbRndisState(options, RndisSamples(observe));
      }
    }

    // -------------------------------------------------------------------------
    // requests
    // -------------------------------------------------------------------------

    /** The chain a request method started, and what RUN_CHAIN left behind, from dispatch state d0. */
    ghost predicate Started(d0: DispatchState, chain: CommandChain, l: Launch)
      reads this, chain
    {
      && chain.commands == l.commands && chain.onError == Some(l.onError)
      && RunOutcome(State(), chain.index, chain.params, chain.deleted)
         == Run(d0, chain, l.commands, -1, l.params, EmptyResult, jb)
    }

    /** getNetworkInterfaceStats. */
    method GetNetworkInterfaceStats(options: NetworkParams) returns (chain: CommandChain)
      modifies this
      ensures fresh(chain) && Started(old(State()), chain, StatsLaunch(options))
      ensures props == old(props) && retry == old(retry) && answered == old(answered)
    {
      var o := options;
      o := o.(rxBytes := -1);
      o := o.(txBytes := -1);
      chain := RunChain(o, NetworkInterfaceStatsChain, Some(NetworkInterfaceStatsFail));
    }

    /** setNetworkInterfaceAlarm. */
    method SetNetworkInterfaceAlarm(options: NetworkParams) returns (chain: CommandChain)
      modifies this
      ensures fresh(chain) && Started(old(State()), chain, Launch(NetworkInterfaceSetAlarmChain, NetworkInterfaceAlarmFail, options))
      ensures props == old(props) && retry == old(retry) && answered == old(answered)
    {
      chain := RunChain(options, NetworkInterfaceSetAlarmChain, Some(NetworkInterfaceAlarmFail));
    }

    /** enableNetworkInterfaceAlarm. */
    method EnableNetworkInterfaceAlarm(options: NetworkParams) returns (chain: CommandChain)
      modifies this
      ensures fresh(chain) && Started(old(State()), chain, Launch(NetworkInterfaceEnableAlarmChain, NetworkInterfaceAlarmFail, options))
      ensures props == old(props) && retry == old(retry) && answered == old(answered)
    {
      chain := RunChain(options, NetworkInterfaceEnableAlarmChain, Some(NetworkInterfaceAlarmFail));
    }

    /** disableNetworkInterfaceAlarm. */
    method DisableNetworkInterfaceAlarm(options: NetworkParams) returns (chain: CommandChain)
      modifies this
      ensures fresh(chain) && Started(old(State()), chain, Launch(NetworkInterfaceDisableAlarmChain, NetworkInterfaceAlarmFail, options))
      ensures props == old(props) && retry == old(retry) && answered == old(answered)
    {
      chain := RunChain(options, NetworkInterfaceDisableAlarmChain, Some(NetworkInterfaceAlarmFail));
    }

    /** setWifiOperationMode: reload the Wi-Fi firmware. */
    method SetWifiOperationMode(options: NetworkParams) returns (chain: CommandChain)
      modifies this
      ensures fresh(chain) && Started(old(State()), chain, Launch(WifiOperationModeChain, WifiOperationModeFail, options))
      ensures props == old(props) && retry == old(retry) && answered == old(answered)
    {
      chain := RunChain(options, WifiOperationModeChain, Some(WifiOperationModeFail));
    }

    /** updateUpStream: move NAT from the old upstream to the new one. */
    method UpdateUpStream(options: NetworkParams) returns (chain: CommandChain)
      modifies this
      ensures fresh(chain) && Started(old(State()), chain, Launch(UpdateUpStreamChain, UpdateUpStreamFail, options))
      ensures props == old(props) && retry == old(retry) && answered == old(answered)
    {
      chain := RunChain(options, UpdateUpStreamChain, Some(UpdateUpStreamFail));
    }

    /** setDhcpServer. */
    method SetDhcpServer(options: NetworkParams) returns (chain: CommandChain)
      modifies this
      ensures fresh(chain) && Started(old(State()), chain, DhcpLaunch(options))
      ensures props == old(props) && retry == old(retry) && answered == old(answered)
    {
      var o := options;
      if o.enabled {
        o := o.(wifiStartIp := o.startIp);
        o := o.(wifiEndIp := o.endIp);
        o := o.(ip := o.serverIp);
        o := o.(prefix := o.maskLength);
        o := o.(link := "up");
        chain := RunChain(o, StartDhcpServerChain, Some(SetDhcpServerFail));
      } else {
        chain := RunChain(o, StopDhcpServerChain, Some(SetDhcpServerFail));
      }
    }

    /** setWifiTethering: take the upstream's DNS servers, then enable or disable. */
    method SetWifiTethering(options: NetworkParams) returns (chain: CommandChain)
      modifies this
      ensures fresh(chain) && Started(old(State()), chain, WifiTetheringLaunch(options, old(props)))
      ensures props == old(props) && retry == old(retry) && answered == old(answered)
    {
      var enable := options.enable;
      var o := UpstreamDns(options);
      if enable {
        chain := RunChain(o, WifiEnableChain, Some(WifiTetheringFail));
      } else {
        chain := RunChain(o, WifiDisableChain, Some(WifiTetheringFail));
      }
    }

    /** setUSBTethering: the same shape over the USB tables. */
    method SetUsbTethering(options: NetworkParams) returns (chain: CommandChain)
      modifies this
      ensures fresh(chain) && Started(old(State()), chain, UsbTetheringLaunch(options, old(props)))
      ensures props == old(props) && retry == old(retry) && answered == old(answered)
    {
      var enable := options.enable;
      var o := UpstreamDns(options);
      if enable {
        chain := RunChain(o, UsbEnableChain, Some(UsbTetheringFail));
      } else {
        chain := RunChain(o, UsbDisableChain, Some(UsbTetheringFail));
      }
    }

    /** getIFProperties on the external interface; a non-empty server replaces the requested one. */
    method UpstreamDns(options: NetworkParams) returns (o: NetworkParams)
      ensures o == WithUpstreamDns(options, props)
    {
      o := options;
      var dns1 := PropertyGet(props, IfDns1Key(options.externalIfname), "");
      var dns2 := PropertyGet(props, IfDns2Key(options.externalIfname), "");
      if dns1 != "" {
        o := o.(dns1 := dns1);
      }
      if dns2 != "" {
        o := o.(dns2 := dns2);
      }
    }

    /** setDNS (and the DNS half of setDefaultRouteAndDNS). */
    method SetDns(options: NetworkParams)
      modifies this`props
      ensures props == SetDnsProps(old(props), options)
    {
      var store := props;
      var dns1 := PropertyGet(store, IfDns1Key(options.ifname), "");
      var dns2 := PropertyGet(store, IfDns2Key(options.ifname), "");
      if options.dns1Str == "" {
        store := store["net.dns1" := dns1];
      } else {
        store := store["net.dns1" := options.dns1Str];
      }
      if options.dns2Str == "" {
        store := store["net.dns2" := dns2];
      } else {
        store := store["net.dns2" := options.dns2Str];
      }
      assert store == DnsServersWritten(props, options);
      var dnschange := PropertyGet(store, "net.dnschange", "0");
      props := store["net.dnschange" := IntToString(Atoi(dnschange) + 1)];
    }

    /** The request methods served by a command chain, chosen by the request the name selects. */
    method StartChain(options: NetworkParams) returns (chain: CommandChain)
      requires ChainRequest(options, props).Some?
      modifies this
      ensures fresh(chain) && Started(old(State()), chain, ChainRequest(options, old(props)).value)
      ensures props == old(props) && retry == old(retry) && answered == old(answered)
    {
      var q := RequestOf(options.cmd).value;
      if q.GetNetworkInterfaceStatsCmd? {
        chain := GetNetworkInterfaceStats(options);
      } else if q.SetNetworkInterfaceAlarmCmd? {
        chain := SetNetworkInterfaceAlarm(options);
      } else if q.EnableNetworkInterfaceAlarmCmd? {
        chain := EnableNetworkInterfaceAlarm(options);
      } else if q.DisableNetworkInterfaceAlarmCmd? {
        chain := DisableNetworkInterfaceAlarm(options);
      } else if q.SetWifiOperationModeCmd? {
        chain := SetWifiOperationMode(options);
      } else if q.SetDhcpServerCmd? {
        chain := SetDhcpServer(options);
      } else if q.SetWifiTetheringCmd? {
        chain := SetWifiTethering(options);
      } else if q.SetUsbTetheringCmd? {
        chain := SetUsbTethering(options);
      } else {
        chain := UpdateUpStream(options);
      }
    }

    /**
     * What the method a known request names leaves behind, from dispatch state d
     * and properties props0: route requests change nothing modelled here, DNS
     * requests write the DNS properties, enableUsbRndis writes sys.usb.config
     * and, when asked to report, polls (from a reset counter) and posts the
     * outcome, and the chain requests run their chain's first call of the
     * trampoline.
     */
    ghost predicate Served(d: DispatchState, props0: Props, options: NetworkParams, observe: nat -> string,
                           chain: CommandChain?, s: DispatchState, props1: Props)
      reads chain
    {
      match KindOf(options.cmd)
      case UnknownRequest => false
      case RouteRequest => chain == null && s == d && props1 == props0
      case DnsRequest => chain == null && s == d && props1 == SetDnsProps(props0, options)
      case RndisRequest =>
        && chain == null
        && props1 == UsbConfigUpdate(props0, options.enable)
        && s == (if options.report
                 then PostTo(d, PollReport(options, Poll(options.enable, RndisSamples(observe), 0)))
                 else d)
      case ChainedRequest =>
        && ChainRequest(options, props0).Some?
        && chain != null
        && var l := ChainRequest(options, props0).value;
        && var run := Run(d, chain, l.commands, -1, l.params, EmptyResult, jb);
        && chain.commands == l.commands && chain.onError == Some(l.onError)
        && RunOutcome(run.state, chain.index, chain.params, chain.deleted) == run
        && s == run.state
        && props1 == props0
    }

    /** The name test of ExecuteCommand and the method it calls. */
    method RunRequest(options: NetworkParams, observe: nat -> string) returns (chain: CommandChain?)
      requires Valid() && KindOf(options.cmd) != UnknownRequest
      modifies this
      ensures Valid()
      ensures chain != null ==> fresh(chain)
      ensures Served(old(State()), old(props), options, observe, chain, State(), props)
    {
      chain := null;
      ghost var d0 := State();
      match KindOf(options.cmd) {
        case RouteRequest =>
          // removeNetworkRoute, removeDefaultRoute, addHostRoute, removeHostRoute(s)
        case DnsRequest =>
          SetDns(options);
        case RndisRequest =>
          EnableUsbRndis(options, observe);
          PostKeeps(d0, PollReport(options, Poll(options.enable, RndisSamples(observe), 0)), answered);
        case ChainedRequest =>
          ghost var l := ChainRequest(options, props).value;
          var c := StartChain(options);
          RunKeeps(d0, c, l.commands, -1, l.params, EmptyResult, jb, answered);
          chain := c;
      }
    }

    /**
     * ExecuteCommand: run the request's method, then answer a synchronous request
     * with mRet true.  An unknown request is dropped without an answer.
     */
    method ExecuteCommand(options: NetworkParams, observe: nat -> string)
      returns (chain: CommandChain?, ghost served: DispatchState)
      requires Valid()
      modifies this
      ensures Valid()
      ensures KindOf(options.cmd) == UnknownRequest ==>
        State() == old(State()) && props == old(props) && chain == null
      ensures KindOf(options.cmd) != UnknownRequest ==>
        && Served(old(State()), old(props), options, observe, chain, served, props)
        && State() == RetPost(options, served)
        && (chain != null ==> fresh(chain))
    {
      chain := null;
      served := State();
      if KindOf(options.cmd) == UnknownRequest {
        return;
      }
      chain := RunRequest(options, observe);
      served := State();
      if !options.isAsync {
        PostMessage(RetResult(options));
        PostKeeps(served, RetResult(options), answered);
      }
    }
  }
}
