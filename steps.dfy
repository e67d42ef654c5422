/**
 * The step functions of the chain tables as a closed set of step kinds, the
 * command each step formats from the chain's parameters, the terminal success
 * handlers, the error handlers with their rollback, and the static tables.
 */
module Steps {
  import opened Wrappers
  import opened CText
  import opened Helpers
  import opened Protocol
  import opened Params

  /** Every COMMAND function that appears in a chain table. */
  datatype Step =
    | WifiFirmwareReload
    | StartAccessPointDriver
    | StopAccessPointDriver
    | SetAccessPoint
    | CleanUpStream
    | CreateUpStream
    | StartSoftAP
    | StopSoftAP
    | GetRxBytes
    | GetTxBytes
    | EnableAlarm
    | DisableAlarm
    | SetQuota
    | RemoveQuota
    | SetAlarm
    | SetInterfaceUp
    | TetherInterface
    | PreTetherInterfaceList
    | PostTetherInterfaceList
    | SetIpForwardingEnabled
    | TetheringStatus
    | StopTethering
    | StartTethering
    | UntetherInterface
    | SetDnsForwarders
    | EnableNat
    | DisableNat
    | WifiTetheringSuccess
    | UsbTetheringSuccess
    | NetworkInterfaceStatsSuccess
    | NetworkInterfaceAlarmSuccess
    | UpdateUpStreamSuccess
    | SetDhcpServerSuccess
    | WifiOperationModeSuccess

  /** The success handlers: they post a result and never call the trampoline again. */
  predicate IsSuccessHandler(s: Step)
  {
    s.WifiTetheringSuccess? || s.UsbTetheringSuccess? || s.NetworkInterfaceStatsSuccess?
    || s.NetworkInterfaceAlarmSuccess? || s.UpdateUpStreamSuccess? || s.SetDhcpServerSuccess?
    || s.WifiOperationModeSuccess?
  }

  /** Every ERROR_CALLBACK a chain is built with. */
  datatype FailHandler =
    | WifiTetheringFail
    | UsbTetheringFail
    | NetworkInterfaceStatsFail
    | NetworkInterfaceAlarmFail
    | UpdateUpStreamFail
    | SetDhcpServerFail
    | WifiOperationModeFail

  /**
   * What one step does when the trampoline calls it:
   *   Command  -- hand one command to doCommand, with the chain's parameters as they are afterwards;
   *   Skip     -- call the trampoline straight back with success and this result;
   *   Finish   -- post this result and stop (the success handlers).
   */
  datatype StepResult =
    | Command(params: NetworkParams, command: string)
    | Skip(result: NetworkResult)
    | Finish(post: NetworkResult)

  /** The result a skipped access-point step passes on: code 0, empty reason. */
  function Skipped(r: NetworkResult): NetworkResult
  {
    r.(resultCode := Some(0), resultReason := Some(""))
  }

  /** startTethering's command when tethering is not yet started. */
  function TetherStartCommand(p: NetworkParams): string
  {
    var base := "tether start " + p.wifiStartIp + " " + p.wifiEndIp;
    if p.usbStartIp != "" && p.usbEndIp != "" then base + " " + p.usbStartIp + " " + p.usbEndIp
    else base
  }

  /** The literal setQuota hands to atoll as the quota. */
  const QuotaHex := "0xffffffffffffffff"

  /**
   * The quota setQuota prints: atoll(QuotaHex), whose digits stop at the 'x'.
   * It is kept as its value, "0", so that the command text does not carry the
   * conversion; QuotaArgumentIsAtoll proves that this is what atoll yields.
   */
  const QuotaArgument := "0"

  /**
   * The step functions.  p is the chain's parameters (getParams), r the result
   * the trampoline was called with, jb the SDK >= 16 flag.  A success handler
   * posts; an access-point driver step under the SDK >= 16 dialect skips; every
   * other step records what it records and sends its command.
   */
  function StepAction(s: Step, p: NetworkParams, r: NetworkResult, jb: bool): (a: StepResult)
    ensures a.Finish? <==> IsSuccessHandler(s)
    ensures a.Finish? ==> a.post.id == Some(p.id)
    ensures a.Skip? ==> a.result.resultCode == Some(0) && a.result.resultReason == Some("")
    ensures a.Command? ==> |a.command| > 0
  {
    if IsSuccessHandler(s) then Finish(SuccessPost(s, p, r))
    else if jb && (s.StartAccessPointDriver? || s.StopAccessPointDriver?) then Skip(Skipped(r))
    else Command(StepParams(s, p, r), StepCommand(s, p, r, jb))
  }

  /** The chain's parameters after a step that sends a command. */
  function StepParams(s: Step, p: NetworkParams, r: NetworkResult): (q: NetworkParams)
    ensures p.interfaceList <= q.interfaceList
    ensures s != GetTxBytes ==> q.rxBytes == p.rxBytes
    ensures s != GetTxBytes && s != PostTetherInterfaceList ==> q == p
  {
    match s
    case GetTxBytes => p.(rxBytes := Atoi(ResultReason(r)))
    case PostTetherInterfaceList => p.(interfaceList := p.interfaceList + Tokens(ResultReason(r), InterfaceDelimit))
    case _ => p
  }

  /**
   * The command a step sends; success handlers send none.  The steps are grouped
   * by the netd subsystem their command addresses.
   */
  function StepCommand(s: Step, p: NetworkParams, r: NetworkResult, jb: bool): (c: string)
    ensures |c| == 0 <==> IsSuccessHandler(s)
  {
    if IsSoftapStep(s) then SoftapCommand(s, p, jb)
    else if IsNatStep(s) then NatCommand(s, p)
    else if IsInterfaceStep(s) then InterfaceCommand(s, p, jb)
    else if IsBandwidthStep(s) then BandwidthCommand(s, p)
    else TetherCommand(s, p, r, jb)
  }

  predicate IsSoftapStep(s: Step)
  {
    s.WifiFirmwareReload? || s.StartAccessPointDriver? || s.StopAccessPointDriver?
    || s.SetAccessPoint? || s.StartSoftAP? || s.StopSoftAP?
  }

  predicate IsNatStep(s: Step)
  {
    s.CleanUpStream? || s.CreateUpStream? || s.EnableNat? || s.DisableNat?
  }

  predicate IsInterfaceStep(s: Step)
  {
    s.GetRxBytes? || s.GetTxBytes? || s.SetInterfaceUp?
  }

  predicate IsBandwidthStep(s: Step)
  {
    s.EnableAlarm? || s.DisableAlarm? || s.SetQuota? || s.RemoveQuota? || s.SetAlarm?
  }

  predicate IsTetherStep(s: Step)
  {
    s.TetherInterface? || s.PreTetherInterfaceList? || s.PostTetherInterfaceList?
    || s.SetIpForwardingEnabled? || s.TetheringStatus? || s.StopTethering? || s.StartTethering?
    || s.UntetherInterface? || s.SetDnsForwarders?
  }

  /** The "softap" commands of the access-point steps. */
  function SoftapCommand(s: Step, p: NetworkParams, jb: bool): (c: string)
    ensures |c| > 0 <==> IsSoftapStep(s)
  {
    match s
    case WifiFirmwareReload => "softap fwreload " + p.ifname + " " + p.mode
    case StartAccessPointDriver => "softap start " + p.ifname
    case StopAccessPointDriver => "softap stop " + p.ifname
    case SetAccessPoint =>
      if jb then "softap set " + p.ifname + " \"" + p.ssid + "\" " + p.security + " \"" + p.key + "\""
      else
        "softap set " + p.ifname + " " + p.wifictrlinterfacename + " \"" + p.ssid + "\" "
        + p.security + " \"" + p.key + "\" 6 0 8"
    case StartSoftAP => "softap startap"
    case StopSoftAP => "softap stopap"
    case _ => ""
  }

  /** The "nat" commands of the upstream and NAT steps. */
  function NatCommand(s: Step, p: NetworkParams): (c: string)
    ensures |c| > 0 <==> IsNatStep(s)
  {
    match s
    case CleanUpStream => "nat disable " + p.preInternalIfname + " " + p.preExternalIfname + " 0"
    case CreateUpStream => "nat enable " + p.curInternalIfname + " " + p.curExternalIfname + " 0"
    case EnableNat => "nat enable " + p.internalIfname + " " + p.externalIfname + " 0"
    case DisableNat => "nat disable " + p.internalIfname + " " + p.externalIfname + " 0"
    case _ => ""
  }

  /** The "interface" commands: the byte counters and the address configuration. */
  function InterfaceCommand(s: Step, p: NetworkParams, jb: bool): (c: string)
    ensures |c| > 0 <==> IsInterfaceStep(s)
  {
    match s
    case GetRxBytes => "interface readrxcounter " + p.ifname
    case GetTxBytes => "interface readtxcounter " + p.ifname
    case SetInterfaceUp =>
      if jb then "interface setcfg " + p.ifname + " " + p.ip + " " + p.prefix + " " + p.link
      else "interface setcfg " + p.ifname + " " + p.ip + " " + p.prefix + " [" + p.link + "]"
    case _ => ""
  }

  /** The "bandwidth" commands of the alarm steps. */
  function BandwidthCommand(s: Step, p: NetworkParams): (c: string)
    ensures |c| > 0 <==> IsBandwidthStep(s)
  {
    match s
    case EnableAlarm => "bandwidth enable"
    case DisableAlarm => "bandwidth disable"
    case SetQuota => "bandwidth setiquota " + p.ifname + " " + QuotaArgument
    case RemoveQuota => "bandwidth removeiquota " + p.ifname
    case SetAlarm => "bandwidth setinterfacealert " + p.ifname + " " + IntToString(p.threshold)
    case _ => ""
  }

  /** The "tether" and "ipfwd" commands, with the skip rules that send the dummy command instead. */
  function TetherCommand(s: Step, p: NetworkParams, r: NetworkResult, jb: bool): (c: string)
    ensures |c| > 0 <==> IsTetherStep(s)
  {
    match s
    case TetherInterface => "tether interface add " + p.ifname
    case PreTetherInterfaceList => if jb then "tether interface list" else "tether interface list 0"
    case PostTetherInterfaceList => DummyCommand
    case SetIpForwardingEnabled =>
      if p.enable then "ipfwd enable"
      else if |p.interfaceList| > 1 then DummyCommand
      else "ipfwd disable"
    case TetheringStatus => "tether status"
    case StopTethering => if |p.interfaceList| > 1 then DummyCommand else "tether stop"
    case StartTethering => if Contains(ResultReason(r), "started") then DummyCommand else TetherStartCommand(p)
    case UntetherInterface => "tether interface remove " + p.ifname
    case SetDnsForwarders => "tether dns set " + p.dns1 + " " + p.dns2
    case _ => ""
  }

  /** What a success handler posts: the result with the fields it fills in, tagged with the request id. */
  function SuccessPost(s: Step, p: NetworkParams, r: NetworkResult): (post: NetworkResult)
    ensures post.id == Some(p.id)
    ensures post.resultCode == r.resultCode && post.resultReason == r.resultReason && post.error == r.error
  {
    match s
    case WifiTetheringSuccess => Tagged(p, r.(enable := Some(p.enable)))
    case UsbTetheringSuccess => Tagged(p, r.(enable := Some(p.enable)))
    case NetworkInterfaceStatsSuccess =>
      Tagged(p, r.(rxBytes := Some(p.rxBytes), txBytes := Some(Atoi(ResultReason(r)))))
    case UpdateUpStreamSuccess =>
      Tagged(p, r.(curExternalIfname := Some(p.curExternalIfname), curInternalIfname := Some(p.curInternalIfname)))
    case SetDhcpServerSuccess => Tagged(p, r.(success := Some(true)))
    case _ => Tagged(p, r)
  }

  // ---------------------------------------------------------------------------
  // chain tables
  // ---------------------------------------------------------------------------

  const WifiFailChain: seq<Step> := [StopSoftAP, SetIpForwardingEnabled, StopTethering]
  const UsbFailChain: seq<Step> := [StopSoftAP, SetIpForwardingEnabled, StopTethering]

  const UsbEnableChain: seq<Step> :=
    [SetInterfaceUp, EnableNat, SetIpForwardingEnabled, TetherInterface, TetheringStatus,
     StartTethering, SetDnsForwarders, UsbTetheringSuccess]
  const UsbDisableChain: seq<Step> :=
    [UntetherInterface, PreTetherInterfaceList, PostTetherInterfaceList, DisableNat,
     SetIpForwardingEnabled, StopTethering, UsbTetheringSuccess]
  const WifiEnableChain: seq<Step> :=
    [WifiFirmwareReload, StartAccessPointDriver, SetAccessPoint, StartSoftAP, SetInterfaceUp,
     TetherInterface, SetIpForwardingEnabled, TetheringStatus, StartTethering, SetDnsForwarders,
     EnableNat, WifiTetheringSuccess]
  const WifiDisableChain: seq<Step> :=
    [StopSoftAP, StopAccessPointDriver, WifiFirmwareReload, UntetherInterface,
     PreTetherInterfaceList, PostTetherInterfaceList, DisableNat, SetIpForwardingEnabled,
     StopTethering, WifiTetheringSuccess]
  const StartDhcpServerChain: seq<Step> := [SetInterfaceUp, StartTethering, SetDhcpServerSuccess]
  const StopDhcpServerChain: seq<Step> := [StopTethering, SetDhcpServerSuccess]
  const NetworkInterfaceStatsChain: seq<Step> := [GetRxBytes, GetTxBytes, NetworkInterfaceStatsSuccess]
  const NetworkInterfaceEnableAlarmChain: seq<Step> :=
    [EnableAlarm, SetQuota, SetAlarm, NetworkInterfaceAlarmSuccess]
  const NetworkInterfaceDisableAlarmChain: seq<Step> :=
    [RemoveQuota, DisableAlarm, NetworkInterfaceAlarmSuccess]
  const NetworkInterfaceSetAlarmChain: seq<Step> := [SetAlarm, NetworkInterfaceAlarmSuccess]
  const WifiOperationModeChain: seq<Step> := [WifiFirmwareReload, WifiOperationModeSuccess]
  const UpdateUpStreamChain: seq<Step> := [CleanUpStream, CreateUpStream, UpdateUpStreamSuccess]

  /** A table that ends in a success handler and has none elsewhere. */
  predicate EndsInOneSuccessHandler(t: seq<Step>)
  {
    |t| > 0 && IsSuccessHandler(t[|t| - 1]) && forall i :: 0 <= i < |t| - 1 ==> !IsSuccessHandler(t[i])
  }

  /** Every operation's table ends in exactly one success handler; the rollback tables have none. */
  lemma CatalogShapes()
    ensures EndsInOneSuccessHandler(UsbEnableChain) && EndsInOneSuccessHandler(UsbDisableChain)
    ensures EndsInOneSuccessHandler(WifiEnableChain) && EndsInOneSuccessHandler(WifiDisableChain)
    ensures EndsInOneSuccessHandler(StartDhcpServerChain) && EndsInOneSuccessHandler(StopDhcpServerChain)
    ensures EndsInOneSuccessHandler(NetworkInterfaceStatsChain)
    ensures EndsInOneSuccessHandler(NetworkInterfaceEnableAlarmChain)
    ensures EndsInOneSuccessHandler(NetworkInterfaceDisableAlarmChain)
    ensures EndsInOneSuccessHandler(NetworkInterfaceSetAlarmChain)
    ensures EndsInOneSuccessHandler(WifiOperationModeChain)
    ensures EndsInOneSuccessHandler(UpdateUpStreamChain)
    ensures forall i :: 0 <= i < |WifiFailChain| ==> !IsSuccessHandler(WifiFailChain[i])
    ensures forall i :: 0 <= i < |UsbFailChain| ==> !IsSuccessHandler(UsbFailChain[i])
  {
  }

  // ---------------------------------------------------------------------------
  // error handlers
  // ---------------------------------------------------------------------------

  /**
   * What an error handler does, given the failing chain's parameters and the
   * result the trampoline marked with mError:
   *   post     -- the result it posts (tagged with the request id);
   *   result   -- the caller's result object once the handler returns;
   *   params   -- the failing chain's parameters once the handler returns;
   *   rollback -- the parameters of the rollback chain it starts, if any;
   *   disableRndis -- whether it then turns the USB rndis function off (without a report).
   */
  datatype FailResult = FailResult(
    post: NetworkResult,
    result: NetworkResult,
    params: NetworkParams,
    rollback: Option<NetworkParams>,
    disableRndis: bool)

  /** The error handlers.  Only the tethering ones roll back, over the same table. */
  function FailAction(h: FailHandler, p: NetworkParams, r: NetworkResult): (f: FailResult)
    ensures f.post.id == Some(p.id) && f.post.resultCode == r.resultCode && f.post.error == r.error
    ensures f.rollback.Some? ==> f.rollback.value == f.params
    ensures f.disableRndis ==> f.rollback.Some?
  {
    match h
    case WifiTetheringFail =>
      // The cleared mEnable lands on the result, after it was posted.
      FailResult(Tagged(p, r), Tagged(p, r).(enable := Some(false)), p, Some(p), false)
    case UsbTetheringFail =>
      var q := p.(enable := false);
      FailResult(Tagged(p, r), Tagged(p, r), q, Some(q), true)
    case SetDhcpServerFail =>
      var posted := Tagged(p, r.(success := Some(false)));
      FailResult(posted, posted, p, None, false)
    case _ => FailResult(Tagged(p, r), Tagged(p, r), p, None, false)
  }

  /** The table of the rollback chain a handler starts. */
  function RollbackTable(h: FailHandler): seq<Step>
  {
    if h.UsbTetheringFail? then UsbFailChain else WifiFailChain
  }

  // ---------------------------------------------------------------------------
  // properties of single steps
  // ---------------------------------------------------------------------------

  /**
   * setIpForwardingEnabled sends exactly one command whatever the parameters; it
   * sends "ipfwd disable" exactly when forwarding is being turned off and at most
   * one interface is listed, and the dummy command when more are listed.
   */
  lemma IpForwardingSkipRule(p: NetworkParams, r: NetworkResult, jb: bool)
    ensures var a := StepAction(SetIpForwardingEnabled, p, r, jb);
      && a.Command? && a.params == p
      && (a.command == "ipfwd enable" <==> p.enable)
      && (a.command == "ipfwd disable" <==> !p.enable && |p.interfaceList| <= 1)
      && (a.command == DummyCommand <==> !p.enable && |p.interfaceList| > 1)
  {
  }

  /** stopTethering sends "tether stop" exactly when at most one interface is listed, else the dummy. */
  lemma StopTetheringSkipRule(p: NetworkParams, r: NetworkResult, jb: bool)
    ensures var a := StepAction(StopTethering, p, r, jb);
      && a.Command? && a.params == p
      && (a.command == "tether stop" <==> |p.interfaceList| <= 1)
      && (a.command == DummyCommand <==> |p.interfaceList| > 1)
  {
  }

  /**
   * startTethering sends the dummy command exactly when the prior reason mentions
   * "started"; otherwise it sends "tether start" with the Wi-Fi range, followed by
   * the USB range only when both USB addresses are non-empty.
   */
  lemma StartTetheringSkipRule(p: NetworkParams, r: NetworkResult, jb: bool)
    ensures var a := StepAction(StartTethering, p, r, jb);
      && a.Command? && a.params == p
      && (Contains(ResultReason(r), "started") ==> a.command == DummyCommand)
      && (!Contains(ResultReason(r), "started") ==>
            a.command == "tether start " + p.wifiStartIp + " " + p.wifiEndIp
                         + (if p.usbStartIp != "" && p.usbEndIp != ""
                            then " " + p.usbStartIp + " " + p.usbEndIp else ""))
  {
  }

  /** When the daemon reports the tethering as started anywhere in its reason, nothing is restarted. */
  lemma StartTetheringAlreadyStarted(p: NetworkParams, r: NetworkResult, before: string, after: string, jb: bool)
    requires r.resultReason == Some(before + "started" + after)
    ensures StepAction(StartTethering, p, r, jb).command == DummyCommand
  {
    var s := before + "started" + after;
    assert s[|before|..|before| + |"started"|] == "started";
    ContainsAt(s, "started", |before|);
  }

  /**
   * A step changes no parameter except the one it exists to record: the receive
   * counter in getTxBytes and the interface list in postTetherInterfaceList.
   */
  lemma StepFrame(s: Step, p: NetworkParams, r: NetworkResult, jb: bool)
    ensures StepAction(s, p, r, jb).Command? ==>
      var q := StepAction(s, p, r, jb).params;
      && q.(rxBytes := p.rxBytes, interfaceList := p.interfaceList) == p
      && (q.rxBytes != p.rxBytes ==> s == GetTxBytes)
      && (q.interfaceList != p.interfaceList ==> s == PostTetherInterfaceList)
  {
  }

  /** Only the access-point driver steps skip, and only in the SDK >= 16 dialect, with code 0 and reason "". */
  lemma SkipSteps(s: Step, p: NetworkParams, r: NetworkResult, jb: bool)
    ensures StepAction(s, p, r, jb).Skip? <==>
              jb && (s == StartAccessPointDriver || s == StopAccessPointDriver)
    ensures StepAction(s, p, r, jb).Skip? ==>
              StepAction(s, p, r, jb).result.resultCode == Some(0)
              && StepAction(s, p, r, jb).result.resultReason == Some("")
    ensures StepAction(s, p, r, jb).Finish? <==> IsSuccessHandler(s)
  {
  }

  /** A success handler posts for the chain's own request id. */
  lemma FinishTagged(s: Step, p: NetworkParams, r: NetworkResult, jb: bool)
    requires IsSuccessHandler(s)
    ensures StepAction(s, p, r, jb).Finish? && StepAction(s, p, r, jb).post.id == Some(p.id)
  {
  }

  /** getTxBytes records the number the receive-counter reply carried, once printed by netd. */
  lemma TxBytesReadsRxReply(p: NetworkParams, r: NetworkResult, n: int, jb: bool)
    requires r.resultReason == Some(IntToString(n))
    ensures StepAction(GetTxBytes, p, r, jb).params.rxBytes == n
  {
    AtoiIntToString(n);
  }

  /** The stats handler reports both counters: the stored receive count and the transmit reply. */
  lemma StatsSuccessCounters(p: NetworkParams, r: NetworkResult, n: int, jb: bool)
    requires r.resultReason == Some(IntToString(n))
    ensures StepAction(NetworkInterfaceStatsSuccess, p, r, jb).post.rxBytes == Some(p.rxBytes)
    ensures StepAction(NetworkInterfaceStatsSuccess, p, r, jb).post.txBytes == Some(n)
  {
    AtoiIntToString(n);
  }

  /** setQuota always asks for a quota of 0. */
  lemma QuotaIsZero(p: NetworkParams, r: NetworkResult, jb: bool)
    ensures StepAction(SetQuota, p, r, jb).command == "bandwidth setiquota " + p.ifname + " 0"
  {
    var head := "bandwidth setiquota " + p.ifname;
    assert head + " " + QuotaArgument == head + " 0";
  }

  /** The quota printed is what atoll makes of the hexadecimal literal: its digits stop at the 'x'. */
  lemma QuotaArgumentIsAtoll()
    ensures IntToString(Atoi(QuotaHex)) == QuotaArgument
  {
    var hex := QuotaHex;
    assert hex[0] == '0' && hex[1] == 'x';
    assert SpaceLength(hex) == 0;
    assert hex[0..] == hex;
    assert DigitLength(hex[1..]) == 0;
    assert DigitLength(hex) == 1;
    assert hex[..1] == "0";
    assert DecimalValue("0") == 0 by {
      assert "0"[..0] == "";
    }
    assert Atoi(hex) == 0;
  }

  /**
   * Because the interface delimiter is the empty string, postTetherInterfaceList
   * adds at most one element, the whole joined reason.
   */
  lemma InterfaceListGrowsByAtMostOne(p: NetworkParams, r: NetworkResult, jb: bool)
    ensures var q := StepAction(PostTetherInterfaceList, p, r, jb).params;
      && |q.interfaceList| <= |p.interfaceList| + 1
      && q.interfaceList[..|p.interfaceList|] == p.interfaceList
      && (ResultReason(r) != "" ==> q.interfaceList[|p.interfaceList|..] == [ResultReason(r)])
  {
    TokensNoDelims(ResultReason(r));
  }

  /**
   * Consequence: a chain that starts from an empty interface list (as every
   * request does) never takes the skip branches after it has listed the
   * interfaces; it always sends "tether stop", and "ipfwd disable" when disabling.
   */
  lemma SkipUnreachableFromEmptyList(p: NetworkParams, r: NetworkResult, r2: NetworkResult, jb: bool)
    requires p.interfaceList == []
    ensures var q := StepAction(PostTetherInterfaceList, p, r, jb).params;
      && StepAction(StopTethering, q, r2, jb).command == "tether stop"
      && (!q.enable ==> StepAction(SetIpForwardingEnabled, q, r2, jb).command == "ipfwd disable")
  {
    InterfaceListGrowsByAtMostOne(p, r, jb);
    var q := StepAction(PostTetherInterfaceList, p, r, jb).params;
    assert |q.interfaceList| <= 1;
    StopTetheringSkipRule(q, r2, jb);
    IpForwardingSkipRule(q, r2, jb);
  }

  /**
   * With a real delimiter the same step would list every interface of a reply
   * that joined them with it, and the skip rules would apply.
   */
  lemma InterfaceListWithDelimiter(names: seq<string>, sep: string)
    requires |sep| > 0 && |names| > 1
    requires forall i :: 0 <= i < |names| ==> |names[i]| > 0 && Avoids(names[i], sep)
    ensures |Tokens(JoinSpec(names, sep), sep)| > 1
  {
    SplitJoin(names, sep);
  }

  // ---------------------------------------------------------------------------
  // properties of the error handlers
  // ---------------------------------------------------------------------------

  /**
   * wifiTetheringFail posts first, then clears mEnable on the result rather than
   * on the parameters: the rollback chain runs with the failing chain's
   * parameters, mEnable unchanged.
   */
  lemma WifiRollbackKeepsEnable(p: NetworkParams, r: NetworkResult)
    ensures var f := FailAction(WifiTetheringFail, p, r);
      && f.post == Tagged(p, r)
      && f.result.enable == Some(false)
      && f.rollback == Some(p)
      && !f.disableRndis
  {
  }

  /** So after a failed enable the second step of the Wi-Fi rollback sends "ipfwd enable" again. */
  lemma WifiRollbackReenablesForwarding(p: NetworkParams, r: NetworkResult, jb: bool)
    requires p.enable
    ensures WifiFailChain[1] == SetIpForwardingEnabled
    ensures StepAction(SetIpForwardingEnabled, p, r, jb).command == "ipfwd enable"
  {
    IpForwardingSkipRule(p, r, jb);
  }

  /**
   * usbTetheringFail clears mEnable on the parameters before the rollback, and
   * then turns rndis off.
   */
  lemma UsbRollbackClearsEnable(p: NetworkParams, r: NetworkResult)
    ensures var f := FailAction(UsbTetheringFail, p, r);
      && f.post == Tagged(p, r)
      && f.rollback == Some(p.(enable := false))
      && f.params == p.(enable := false)
      && f.disableRndis
  {
  }

  /** So the second step of the USB rollback disables forwarding unless other interfaces are listed. */
  lemma UsbRollbackDisablesForwarding(q: NetworkParams, r: NetworkResult, jb: bool)
    requires !q.enable && |q.interfaceList| <= 1
    ensures UsbFailChain[1] == SetIpForwardingEnabled
    ensures StepAction(SetIpForwardingEnabled, q, r, jb).command == "ipfwd disable"
  {
    IpForwardingSkipRule(q, r, jb);
  }

  /** Every handler posts the failure exactly as it received it, tagged with the request id. */
  lemma FailurePosted(h: FailHandler, p: NetworkParams, r: NetworkResult)
    ensures FailAction(h, p, r).post.id == Some(p.id)
    ensures FailAction(h, p, r).post.resultCode == r.resultCode
    ensures FailAction(h, p, r).post.resultReason == r.resultReason
    ensures FailAction(h, p, r).post.error == r.error
    ensures FailAction(h, p, r).rollback.Some? <==> h == WifiTetheringFail || h == UsbTetheringFail
    ensures FailAction(h, p, r).disableRndis <==> h == UsbTetheringFail
    ensures h == SetDhcpServerFail ==> FailAction(h, p, r).post.success == Some(false)
  {
  }
}
