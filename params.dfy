/**
 * NetworkParams, the flat parameter bundle every chain step reads and writes;
 * NetworkCommandOptions, the request it is built from; and the result record
 * (NetworkResultOptions) that callbacks and the post sink receive.
 */
module Params {
  import opened Wrappers

  /**
   * The fields of NetworkParams, in declaration order.  The float byte counters
   * are whole numbers here; mId is an int32_t and mThreshold a long.
   */
  datatype NetworkParams = NetworkParams(
    id: int,
    cmd: string,
    dns1Str: string,
    dns2Str: string,
    gateway: string,
    gatewayStr: string,
    hostnames: seq<string>,
    ifname: string,
    ip: string,
    netmask: string,
    oldIfname: string,
    mode: string,
    report: bool,
    isAsync: bool,
    enabled: bool,
    wifictrlinterfacename: string,
    internalIfname: string,
    externalIfname: string,
    enable: bool,
    ssid: string,
    security: string,
    key: string,
    prefix: string,
    link: string,
    interfaceList: seq<string>,
    wifiStartIp: string,
    wifiEndIp: string,
    usbStartIp: string,
    usbEndIp: string,
    dns1: string,
    dns2: string,
    rxBytes: int,
    txBytes: int,
    date: string,
    startIp: string,
    endIp: string,
    serverIp: string,
    maskLength: string,
    preInternalIfname: string,
    preExternalIfname: string,
    curInternalIfname: string,
    curExternalIfname: string,
    threshold: int)

  /** The request dictionary: id and cmd are always present, every other member may be absent. */
  datatype NetworkCommandOptions = NetworkCommandOptions(
    id: int,
    cmd: string,
    dns1Str: Option<string>,
    dns2Str: Option<string>,
    gateway: Option<string>,
    gatewayStr: Option<string>,
    hostnames: Option<seq<string>>,
    ifname: Option<string>,
    ip: Option<string>,
    netmask: Option<string>,
    oldIfname: Option<string>,
    mode: Option<string>,
    report: Option<bool>,
    isAsync: Option<bool>,
    enabled: Option<bool>,
    wifictrlinterfacename: Option<string>,
    internalIfname: Option<string>,
    externalIfname: Option<string>,
    enable: Option<bool>,
    ssid: Option<string>,
    security: Option<string>,
    key: Option<string>,
    prefix: Option<string>,
    link: Option<string>,
    interfaceList: Option<seq<string>>,
    wifiStartIp: Option<string>,
    wifiEndIp: Option<string>,
    usbStartIp: Option<string>,
    usbEndIp: Option<string>,
    dns1: Option<string>,
    dns2: Option<string>,
    rxBytes: Option<int>,
    txBytes: Option<int>,
    date: Option<string>,
    startIp: Option<string>,
    endIp: Option<string>,
    serverIp: Option<string>,
    maskLength: Option<string>,
    preInternalIfname: Option<string>,
    preExternalIfname: Option<string>,
    curInternalIfname: Option<string>,
    curExternalIfname: Option<string>,
    threshold: Option<int>)

  /** A result record; None is a member that was never assigned. */
  datatype NetworkResult = NetworkResult(
    id: Option<int>,
    resultCode: Option<int>,
    resultReason: Option<string>,
    error: Option<bool>,
    topic: Option<string>,
    broadcast: Option<bool>,
    reason: Option<string>,
    enable: Option<bool>,
    result: Option<bool>,
    rxBytes: Option<int>,
    txBytes: Option<int>,
    curExternalIfname: Option<string>,
    curInternalIfname: Option<string>,
    success: Option<bool>,
    ret: Option<bool>)

  /** A freshly declared NetworkResultOptions. */
  const EmptyResult := NetworkResult(None, None, None, None, None, None, None, None, None,
                                     None, None, None, None, None, None)

  /** The reason a callback reads from a result; an unassigned one reads as "". */
  function ResultReason(r: NetworkResult): string
  {
    if r.resultReason.Some? then r.resultReason.value else ""
  }

  /**
   * COPY_OPT_STRING_FIELD with the empty default: an absent member and the
   * literal "null" both become "".
   */
  function OptString(v: Option<string>): (s: string)
    ensures s == "" <==> v.None? || v.value == "" || v.value == "null"
    ensures v.Some? && v.value != "null" ==> s == v.value
    ensures s != "null"
  {
    if v.Some? then (if v.value == "null" then "" else v.value) else ""
  }

  /** COPY_OPT_FIELD: the passed value, or the default. */
  function OptValue<T>(v: Option<T>, default: T): (x: T)
    ensures v.None? ==> x == default
    ensures v.Some? ==> x == v.value
  {
    if v.Some? then v.value else default
  }

  /** The elements COPY_SEQUENCE_FIELD copies: none when the member is absent. */
  function Passed(v: Option<seq<string>>): seq<string>
  {
    if v.Some? then v.value else []
  }

  /**
   * COPY_SEQUENCE_FIELD: append each element of the member, in order, to the
   * given list (the macro always targets mHostnames).
   */
  method AppendSequence(list: seq<string>, v: Option<seq<string>>) returns (r: seq<string>)
    ensures r == list + Passed(v)
    ensures |r| == |list| + |Passed(v)|
  {
    r := list;
    if v.Some? {
      var current := v.value;
      var idx := 0;
      while idx < |current|
        invariant 0 <= idx <= |current|
        invariant r == list + current[..idx]
      {
        assert current[..idx + 1] == current[..idx] + [current[idx]];
        r := r + [current[idx]];
        idx := idx + 1;
      }
      assert current[..idx] == current;
    }
  }

  /** No string parameter holds the literal "null". */
  predicate NoNullStrings(p: NetworkParams)
  {
    p.dns1Str != "null" && p.dns2Str != "null" && p.gateway != "null" && p.gatewayStr != "null"
    && p.ifname != "null" && p.ip != "null" && p.netmask != "null" && p.oldIfname != "null"
    && p.mode != "null" && p.wifictrlinterfacename != "null" && p.internalIfname != "null" && p.externalIfname != "null"
    && p.ssid != "null" && p.security != "null" && p.key != "null" && p.prefix != "null"
    && p.link != "null" && p.wifiStartIp != "null" && p.wifiEndIp != "null" && p.usbStartIp != "null"
    && p.usbEndIp != "null" && p.dns1 != "null" && p.dns2 != "null" && p.date != "null"
    && p.startIp != "null" && p.endIp != "null" && p.serverIp != "null" && p.maskLength != "null"
    && p.preInternalIfname != "null" && p.preExternalIfname != "null" && p.curInternalIfname != "null" && p.curExternalIfname != "null"
  }

  /**
   * The parameters the options constructor produces, field by field.  A member
   * passed as "null" never reaches them, and the interface list always starts
   * empty (COPY_SEQUENCE_FIELD sends that member to the host names).
   */
  function OptionsToParams(o: NetworkCommandOptions): (p: NetworkParams)
    ensures NoNullStrings(p)
    ensures p.interfaceList == []
  {
    NetworkParams(
      id := o.id,
      cmd := o.cmd,
      dns1Str := OptString(o.dns1Str),
      dns2Str := OptString(o.dns2Str),
      gateway := OptString(o.gateway),
      gatewayStr := OptString(o.gatewayStr),
      hostnames := Passed(o.hostnames) + Passed(o.interfaceList),
      ifname := OptString(o.ifname),
      ip := OptString(o.ip),
      netmask := OptString(o.netmask),
      oldIfname := OptString(o.oldIfname),
      mode := OptString(o.mode),
      report := OptValue(o.report, false),
      isAsync := OptValue(o.isAsync, true),
      enabled := OptValue(o.enabled, false),
      wifictrlinterfacename := OptString(o.wifictrlinterfacename),
      internalIfname := OptString(o.internalIfname),
      externalIfname := OptString(o.externalIfname),
      enable := OptValue(o.enable, false),
      ssid := OptString(o.ssid),
      security := OptString(o.security),
      key := OptString(o.key),
      prefix := OptString(o.prefix),
      link := OptString(o.link),
      interfaceList := [],
      wifiStartIp := OptString(o.wifiStartIp),
      wifiEndIp := OptString(o.wifiEndIp),
      usbStartIp := OptString(o.usbStartIp),
      usbEndIp := OptString(o.usbEndIp),
      dns1 := OptString(o.dns1),
      dns2 := OptString(o.dns2),
      rxBytes := OptValue(o.rxBytes, -1),
      txBytes := OptValue(o.txBytes, -1),
      date := OptString(o.date),
      startIp := OptString(o.startIp),
      endIp := OptString(o.endIp),
      serverIp := OptString(o.serverIp),
      maskLength := OptString(o.maskLength),
      preInternalIfname := OptString(o.preInternalIfname),
      preExternalIfname := OptString(o.preExternalIfname),
      curInternalIfname := OptString(o.curInternalIfname),
      curExternalIfname := OptString(o.curExternalIfname),
      threshold := OptValue(o.threshold, -1))
  }

  /**
   * NetworkParams(const NetworkCommandOptions&): the two sequence members are
   * appended to the host names by COPY_SEQUENCE_FIELD's loop, every other field
   * is copied or defaulted.
   */
  method FromOptions(o: NetworkCommandOptions) returns (p: NetworkParams)
    ensures p == OptionsToParams(o)
  {
    var hostnames: seq<string> := [];
    hostnames := AppendSequence(hostnames, o.hostnames);
    hostnames := AppendSequence(hostnames, o.interfaceList);
    p := OptionsToParams(o).(hostnames := hostnames);
  }

  /** The scalar defaults of the options constructor. */
  lemma OptionsScalarDefaults(o: NetworkCommandOptions)
    requires o.report.None? && o.isAsync.None? && o.enabled.None? && o.enable.None?
    requires o.rxBytes.None? && o.txBytes.None? && o.threshold.None?
    ensures var p := OptionsToParams(o);
      && !p.report && p.isAsync && !p.enabled && !p.enable
      && p.rxBytes == -1 && p.txBytes == -1 && p.threshold == -1
  {
  }

  /** Passed scalar options are taken as they are; id and cmd always are. */
  lemma OptionsScalarsPassed(o: NetworkCommandOptions)
    ensures var p := OptionsToParams(o);
      && p.id == o.id && p.cmd == o.cmd
      && (o.report.Some? ==> p.report == o.report.value)
      && (o.enabled.Some? ==> p.enabled == o.enabled.value)
      && (o.rxBytes.Some? ==> p.rxBytes == o.rxBytes.value)
      && (o.txBytes.Some? ==> p.txBytes == o.txBytes.value)
      && (o.enable.Some? ==> p.enable == o.enable.value)
      && (o.isAsync.Some? ==> p.isAsync == o.isAsync.value)
      && (o.threshold.Some? ==> p.threshold == o.threshold.value)
  {
  }

  /**
   * Both sequence members land, in order, in the host names, and the interface
   * list stays empty whatever was passed for it.
   */
  lemma OptionsSequences(o: NetworkCommandOptions)
    ensures var p := OptionsToParams(o);
      && p.interfaceList == []
      && |p.hostnames| == |Passed(o.hostnames)| + |Passed(o.interfaceList)|
      && p.hostnames[..|Passed(o.hostnames)|] == Passed(o.hostnames)
      && p.hostnames[|Passed(o.hostnames)|..] == Passed(o.interfaceList)
  {
  }

  /** A string member passed as "null", read as absent. */
  function NullAsAbsent(v: Option<string>): (w: Option<string>)
    ensures OptString(w) == OptString(v)
    ensures w != Some("null")
  {
    if v == Some("null") then None else v
  }

  /** The options with every string member passed as "null" turned into an absent one. */
  function NullsDropped(o: NetworkCommandOptions): NetworkCommandOptions
  {
    o.(
      dns1Str := NullAsAbsent(o.dns1Str),
      dns2Str := NullAsAbsent(o.dns2Str),
      gateway := NullAsAbsent(o.gateway),
      gatewayStr := NullAsAbsent(o.gatewayStr),
      ifname := NullAsAbsent(o.ifname),
      ip := NullAsAbsent(o.ip),
      netmask := NullAsAbsent(o.netmask),
      oldIfname := NullAsAbsent(o.oldIfname),
      mode := NullAsAbsent(o.mode),
      wifictrlinterfacename := NullAsAbsent(o.wifictrlinterfacename),
      internalIfname := NullAsAbsent(o.internalIfname),
      externalIfname := NullAsAbsent(o.externalIfname),
      ssid := NullAsAbsent(o.ssid),
      security := NullAsAbsent(o.security),
      key := NullAsAbsent(o.key),
      prefix := NullAsAbsent(o.prefix),
      link := NullAsAbsent(o.link),
      wifiStartIp := NullAsAbsent(o.wifiStartIp),
      wifiEndIp := NullAsAbsent(o.wifiEndIp),
      usbStartIp := NullAsAbsent(o.usbStartIp),
      usbEndIp := NullAsAbsent(o.usbEndIp),
      dns1 := NullAsAbsent(o.dns1),
      dns2 := NullAsAbsent(o.dns2),
      date := NullAsAbsent(o.date),
      startIp := NullAsAbsent(o.startIp),
      endIp := NullAsAbsent(o.endIp),
      serverIp := NullAsAbsent(o.serverIp),
      maskLength := NullAsAbsent(o.maskLength),
      preInternalIfname := NullAsAbsent(o.preInternalIfname),
      preExternalIfname := NullAsAbsent(o.preExternalIfname),
      curInternalIfname := NullAsAbsent(o.curInternalIfname),
      curExternalIfname := NullAsAbsent(o.curExternalIfname))
  }

  /**
   * Two requests that differ only in passing some string members as "null"
   * where the other leaves them out (or the reverse) give the same parameters.
   */
  lemma OptionsNullIsAbsent(o1: NetworkCommandOptions, o2: NetworkCommandOptions)
    requires NullsDropped(o1) == NullsDropped(o2)
    ensures OptionsToParams(o1) == OptionsToParams(o2)
  {
    assert OptionsToParams(NullsDropped(o1)) == OptionsToParams(o1);
    assert OptionsToParams(NullsDropped(o2)) == OptionsToParams(o2);
  }

  /**
   * The copy constructor NetworkParams(const NetworkParams&): every field is
   * assigned from the original.
   */
  function CopyParams(a: NetworkParams): (p: NetworkParams)
    ensures p == a
  {
    NetworkParams(
      id := a.id,
      cmd := a.cmd,
      dns1Str := a.dns1Str,
      dns2Str := a.dns2Str,
      gateway := a.gateway,
      gatewayStr := a.gatewayStr,
      hostnames := a.hostnames,
      ifname := a.ifname,
      ip := a.ip,
      netmask := a.netmask,
      oldIfname := a.oldIfname,
      mode := a.mode,
      report := a.report,
      isAsync := a.isAsync,
      enabled := a.enabled,
      wifictrlinterfacename := a.wifictrlinterfacename,
      internalIfname := a.internalIfname,
      externalIfname := a.externalIfname,
      enable := a.enable,
      ssid := a.ssid,
      security := a.security,
      key := a.key,
      prefix := a.prefix,
      link := a.link,
      interfaceList := a.interfaceList,
      wifiStartIp := a.wifiStartIp,
      wifiEndIp := a.wifiEndIp,
      usbStartIp := a.usbStartIp,
      usbEndIp := a.usbEndIp,
      dns1 := a.dns1,
      dns2 := a.dns2,
      rxBytes := a.rxBytes,
      txBytes := a.txBytes,
      date := a.date,
      startIp := a.startIp,
      endIp := a.endIp,
      serverIp := a.serverIp,
      maskLength := a.maskLength,
      preInternalIfname := a.preInternalIfname,
      preExternalIfname := a.preExternalIfname,
      curInternalIfname := a.curInternalIfname,
      curExternalIfname := a.curExternalIfname,
      threshold := a.threshold)
  }

  /**
   * The default constructor NetworkParams(): strings and arrays empty.  Its
   * scalars are left uninitialised in C++; they are false and 0 here.
   */
  const BlankParams := NetworkParams(
    0, "", "", "", "", "", [], "", "", "", "", "", false, false, false, "", "", "", false,
    "", "", "", "", "", [], "", "", "", "", "", "", 0, 0, "", "", "", "", "", "", "", "",
    "", 0)

  /** postMessage(aOptions, aResult): the result is tagged with the request id. */
  function Tagged(p: NetworkParams, r: NetworkResult): NetworkResult
  {
    r.(id := Some(p.id))
  }
}
