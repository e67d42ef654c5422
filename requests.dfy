/**
 * The requests ExecuteCommand accepts and, for those served by a command chain,
 * which table runs, which error handler it gets, and the parameters the request
 * method derives before RUN_CHAIN copies them into the chain.
 */
module Requests {
  import opened Wrappers
  import opened CText
  import opened Params
  import opened Steps
  import opened Chain
  import opened Properties

  /** What RUN_CHAIN is given: the table, the error handler and the parameters to copy. */
  datatype Launch = Launch(commands: seq<Step>, onError: FailHandler, params: NetworkParams)

  /** The requests ExecuteCommand recognises, one per mCmd name it tests. */
  datatype Request =
    | RemoveNetworkRouteCmd | SetDnsCmd | SetDefaultRouteAndDnsCmd | RemoveDefaultRouteCmd
    | AddHostRouteCmd | RemoveHostRouteCmd | RemoveHostRoutesCmd
    | GetNetworkInterfaceStatsCmd | SetNetworkInterfaceAlarmCmd | EnableNetworkInterfaceAlarmCmd
    | DisableNetworkInterfaceAlarmCmd | SetWifiOperationModeCmd | SetDhcpServerCmd
    | SetWifiTetheringCmd | SetUsbTetheringCmd | EnableUsbRndisCmd | UpdateUpStreamCmd

  /** The mCmd name of each request. */
  function RequestName(q: Request): string
  {
    match q
    case RemoveNetworkRouteCmd => "removeNetworkRoute"
    case SetDnsCmd => "setDNS"
    case SetDefaultRouteAndDnsCmd => "setDefaultRouteAndDNS"
    case RemoveDefaultRouteCmd => "removeDefaultRoute"
    case AddHostRouteCmd => "addHostRoute"
    case RemoveHostRouteCmd => "removeHostRoute"
    case RemoveHostRoutesCmd => "removeHostRoutes"
    case GetNetworkInterfaceStatsCmd => "getNetworkInterfaceStats"
    case SetNetworkInterfaceAlarmCmd => "setNetworkInterfaceAlarm"
    case EnableNetworkInterfaceAlarmCmd => "enableNetworkInterfaceAlarm"
    case DisableNetworkInterfaceAlarmCmd => "disableNetworkInterfaceAlarm"
    case SetWifiOperationModeCmd => "setWifiOperationMode"
    case SetDhcpServerCmd => "setDhcpServer"
    case SetWifiTetheringCmd => "setWifiTethering"
    case SetUsbTetheringCmd => "setUSBTethering"
    case EnableUsbRndisCmd => "enableUsbRndis"
    case UpdateUpStreamCmd => "updateUpStream"
  }

  /** The order in which ExecuteCommand tests the names. */
  const RequestOrder: seq<Request> :=
    [ RemoveNetworkRouteCmd, SetDnsCmd, SetDefaultRouteAndDnsCmd, RemoveDefaultRouteCmd,
      AddHostRouteCmd, RemoveHostRouteCmd, RemoveHostRoutesCmd, GetNetworkInterfaceStatsCmd,
      SetNetworkInterfaceAlarmCmd, EnableNetworkInterfaceAlarmCmd, DisableNetworkInterfaceAlarmCmd, SetWifiOperationModeCmd,
      SetDhcpServerCmd, SetWifiTetheringCmd, SetUsbTetheringCmd, EnableUsbRndisCmd,
      UpdateUpStreamCmd ]

  /** ExecuteCommand's name test: the first request of order, from position i on, whose name is cmd. */
  function FirstNamed(cmd: string, order: seq<Request>, i: nat): (q: Option<Request>)
    ensures q.Some? ==> RequestName(q.value) == cmd
    decreases |order| - i
  {
    if i >= |order| then None
    else if RequestName(order[i]) == cmd then Some(order[i])
    else FirstNamed(cmd, order, i + 1)
  }

  /** The request a name selects; None for a name ExecuteCommand does not know. */
  function RequestOf(cmd: string): (q: Option<Request>)
    ensures q.Some? ==> RequestName(q.value) == cmd
  {
    FirstNamed(cmd, RequestOrder, 0)
  }

  /** How ExecuteCommand serves a request. */
  datatype RequestKind = RouteRequest | DnsRequest | RndisRequest | ChainedRequest | UnknownRequest

  /**
   * The route requests only call into the route library (not part of this model);
   * setDNS and setDefaultRouteAndDNS (after its route call) write the DNS
   * properties; enableUsbRndis switches the USB function; the rest run a chain.
   */
  function KindOf(cmd: string): RequestKind
  {
    match RequestOf(cmd)
    case None => UnknownRequest
    case Some(q) =>
      if q.RemoveNetworkRouteCmd? || q.RemoveDefaultRouteCmd? || q.AddHostRouteCmd?
         || q.RemoveHostRouteCmd? || q.RemoveHostRoutesCmd? then RouteRequest
      else if q.SetDnsCmd? || q.SetDefaultRouteAndDnsCmd? then DnsRequest
      else if q.EnableUsbRndisCmd? then RndisRequest
      else ChainedRequest
  }

  /** getNetworkInterfaceStats: both counters start at -1. */
  function StatsLaunch(o: NetworkParams): Launch
  {
    Launch(NetworkInterfaceStatsChain, NetworkInterfaceStatsFail, o.(rxBytes := -1, txBytes := -1))
  }

  /**
   * setDhcpServer: when enabling, the Wi-Fi range, the address, the prefix and
   * the link are taken from the DHCP fields before the start table runs.
   */
  function DhcpLaunch(o: NetworkParams): Launch
  {
    if o.enabled then
      Launch(StartDhcpServerChain, SetDhcpServerFail,
             o.(wifiStartIp := o.startIp, wifiEndIp := o.endIp, ip := o.serverIp,
                prefix := o.maskLength, link := "up"))
    else Launch(StopDhcpServerChain, SetDhcpServerFail, o)
  }

  /** The DNS servers the tethering requests forward to: the external interface's, when it has them. */
  function WithUpstreamDns(o: NetworkParams, props: Props): NetworkParams
  {
    var dns1 := IfDns1(props, o.externalIfname);
    var dns2 := IfDns2(props, o.externalIfname);
    o.(dns1 := if dns1 != "" then dns1 else o.dns1, dns2 := if dns2 != "" then dns2 else o.dns2)
  }

  function WifiTetheringLaunch(o: NetworkParams, props: Props): Launch
  {
    Launch(if o.enable then WifiEnableChain else WifiDisableChain, WifiTetheringFail, WithUpstreamDns(o, props))
  }

  function UsbTetheringLaunch(o: NetworkParams, props: Props): Launch
  {
    Launch(if o.enable then UsbEnableChain else UsbDisableChain, UsbTetheringFail, WithUpstreamDns(o, props))
  }

  /** The chain a request starts, if it is served by one. */
  function ChainRequest(o: NetworkParams, props: Props): (l: Option<Launch>)
    ensures l.Some? <==> KindOf(o.cmd) == ChainedRequest
    ensures l.Some? ==> EndsInOneSuccessHandler(l.value.commands)
  {
    CatalogShapes();
    match RequestOf(o.cmd)
    case Some(GetNetworkInterfaceStatsCmd) => Some(StatsLaunch(o))
    case Some(SetNetworkInterfaceAlarmCmd) => Some(Launch(NetworkInterfaceSetAlarmChain, NetworkInterfaceAlarmFail, o))
    case Some(EnableNetworkInterfaceAlarmCmd) =>
      Some(Launch(NetworkInterfaceEnableAlarmChain, NetworkInterfaceAlarmFail, o))
    case Some(DisableNetworkInterfaceAlarmCmd) =>
      Some(Launch(NetworkInterfaceDisableAlarmChain, NetworkInterfaceAlarmFail, o))
    case Some(SetWifiOperationModeCmd) => Some(Launch(WifiOperationModeChain, WifiOperationModeFail, o))
    case Some(SetDhcpServerCmd) => Some(DhcpLaunch(o))
    case Some(SetWifiTetheringCmd) => Some(WifiTetheringLaunch(o, props))
    case Some(SetUsbTetheringCmd) => Some(UsbTetheringLaunch(o, props))
    case Some(UpdateUpStreamCmd) => Some(Launch(UpdateUpStreamChain, UpdateUpStreamFail, o))
    case _ => None
  }

  /** The reply a synchronous request gets once its method has returned: mRet true, tagged. */
  function RetResult(o: NetworkParams): NetworkResult
  {
    Tagged(o, EmptyResult.(ret := Some(true)))
  }

  /** Length, first letter and seventh letter (or first again): enough to tell the request names apart. */
  function Fingerprint(name: string): (int, char, char)
    requires |name| > 0
  {
    (|name|, name[0], if |name| > 6 then name[6] else name[0])
  }

  lemma {:induction false} NamesDiffer(a: Request, b: Request)
    requires RequestName(a) == RequestName(b)
    ensures a == b
  {
    assert Fingerprint(RequestName(a)) == Fingerprint(RequestName(b));
  }

  /** Every request has its place in the order. */
  function Position(q: Request): (i: nat)
    ensures i < |RequestOrder| && RequestOrder[i] == q
  {
    match q
    case RemoveNetworkRouteCmd => 0
    case SetDnsCmd => 1
    case SetDefaultRouteAndDnsCmd => 2
    case RemoveDefaultRouteCmd => 3
    case AddHostRouteCmd => 4
    case RemoveHostRouteCmd => 5
    case RemoveHostRoutesCmd => 6
    case GetNetworkInterfaceStatsCmd => 7
    case SetNetworkInterfaceAlarmCmd => 8
    case EnableNetworkInterfaceAlarmCmd => 9
    case DisableNetworkInterfaceAlarmCmd => 10
    case SetWifiOperationModeCmd => 11
    case SetDhcpServerCmd => 12
    case SetWifiTetheringCmd => 13
    case SetUsbTetheringCmd => 14
    case EnableUsbRndisCmd => 15
    case UpdateUpStreamCmd => 16
  }

  /** The search finds a name when some later position holds it. */
  lemma {:induction false} FirstNamedFinds(cmd: string, order: seq<Request>, i: nat, j: nat)
    requires i <= j < |order| && RequestName(order[j]) == cmd
    ensures FirstNamed(cmd, order, i).Some?
    decreases j - i
  {
    if RequestName(order[i]) != cmd {
      FirstNamedFinds(cmd, order, i + 1, j);
    }
  }

  /**
   * Each request name is recognised as its own request: no name is shadowed by
   * an earlier test of the chain.
   */
  lemma RequestOfName(q: Request)
    ensures RequestOf(RequestName(q)) == Some(q)
  {
    FirstNamedFinds(RequestName(q), RequestOrder, 0, Position(q));
    NamesDiffer(RequestOf(RequestName(q)).value, q);
  }

  /** The stats request reports the counters as -1 until the replies arrive, and changes nothing else. */
  lemma StatsResetsCounters(o: NetworkParams)
    ensures StatsLaunch(o).params.rxBytes == -1 && StatsLaunch(o).params.txBytes == -1
    ensures StatsLaunch(o).params.(rxBytes := o.rxBytes, txBytes := o.txBytes) == o
  {
  }

  /**
   * Starting the DHCP server configures the interface with the server address,
   * the mask length as prefix and link "up", then starts tethering over the DHCP
   * range (both dialects shown by their first command).
   */
  lemma DhcpStartCommands(o: NetworkParams, r: NetworkResult, jb: bool)
    requires o.enabled
    ensures var l := DhcpLaunch(o);
      && Advance(l.commands, -1, l.params, EmptyResult, jb) ==
           Issued(0, l.params, "interface setcfg " + o.ifname + " " + o.serverIp + " " + o.maskLength + " "
                               + (if jb then "up" else "[up]"))
      && (!Contains(ResultReason(r), "started") ==>
           Advance(l.commands, 0, l.params, r, jb) ==
             Issued(1, l.params, "tether start " + o.startIp + " " + o.endIp
                                 + (if o.usbStartIp != "" && o.usbEndIp != ""
                                    then " " + o.usbStartIp + " " + o.usbEndIp else "")))
  {
    DhcpConfigStep(o, jb);
    DhcpTetherStep(o, r, jb);
  }

  lemma DhcpConfigStep(o: NetworkParams, jb: bool)
    requires o.enabled
    ensures var l := DhcpLaunch(o);
      Advance(l.commands, -1, l.params, EmptyResult, jb) ==
        Issued(0, l.params, "interface setcfg " + o.ifname + " " + o.serverIp + " " + o.maskLength + " "
                            + (if jb then "up" else "[up]"))
  {
    var l := DhcpLaunch(o);
    assert l.commands[0] == SetInterfaceUp;
    SkipSteps(SetInterfaceUp, l.params, EmptyResult, jb);
    AdvanceNoSkip(l.commands, -1, l.params, EmptyResult, jb);
  }

  lemma DhcpTetherStep(o: NetworkParams, r: NetworkResult, jb: bool)
    requires o.enabled
    ensures var l := DhcpLaunch(o);
      !Contains(ResultReason(r), "started") ==>
        Advance(l.commands, 0, l.params, r, jb) ==
          Issued(1, l.params, "tether start " + o.startIp + " " + o.endIp
                              + (if o.usbStartIp != "" && o.usbEndIp != ""
                                 then " " + o.usbStartIp + " " + o.usbEndIp else ""))
  {
    var l := DhcpLaunch(o);
    assert l.commands[1] == StartTethering;
    StartTetheringSkipRule(l.params, r, jb);
    AdvanceNoSkip(l.commands, 0, l.params, r, jb);
  }

  /** Stopping it only stops tethering (unless other interfaces are listed) and reports. */
  lemma DhcpStopCommands(o: NetworkParams, jb: bool)
    requires !o.enabled && |o.interfaceList| <= 1
    ensures var l := DhcpLaunch(o);
      Advance(l.commands, -1, l.params, EmptyResult, jb) == Issued(0, o, "tether stop")
  {
    var l := DhcpLaunch(o);
    assert l.commands[0] == StopTethering;
    assert Fetch(l.commands, 0) == Some(StopTethering);
    StopTetheringSkipRule(o, EmptyResult, jb);
  }

  /**
   * The tethering requests forward the upstream interface's DNS servers when it
   * has them, keep the requested ones otherwise, and change nothing else.
   */
  lemma UpstreamDnsRule(o: NetworkParams, props: Props)
    ensures var q := WithUpstreamDns(o, props);
      && (IfDns1(props, o.externalIfname) != "" ==> q.dns1 == IfDns1(props, o.externalIfname))
      && (IfDns1(props, o.externalIfname) == "" ==> q.dns1 == o.dns1)
      && (IfDns2(props, o.externalIfname) != "" ==> q.dns2 == IfDns2(props, o.externalIfname))
      && (IfDns2(props, o.externalIfname) == "" ==> q.dns2 == o.dns2)
      && q.(dns1 := o.dns1, dns2 := o.dns2) == o
  {
  }

}
