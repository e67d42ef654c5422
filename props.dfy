/**
 * The Android system property store as a map from keys to values, with
 * property_get's defaulting, getIFProperties' per-interface keys, and the
 * property writes of setDNS.
 */
module Properties {
  import opened CText
  import opened Params

  type Props = map<string, string>

  /**
   * property_get: the stored value, or the default when the key is unset or its
   * value is empty.  A NULL default yields the empty string.
   */
  function PropertyGet(props: Props, key: string, default: string): (v: string)
    ensures key in props && props[key] != "" ==> v == props[key]
    ensures (key !in props || props[key] == "") ==> v == default
  {
    if key in props && props[key] != "" then props[key] else default
  }

  /**
   * property_set then property_get: a non-empty value written under a key is
   * read back, an empty one reads as the default, and other keys are unaffected.
   */
  lemma PropertyWriteRead(props: Props, key: string, value: string, other: string, default: string)
    ensures value != "" ==> PropertyGet(props[key := value], key, default) == value
    ensures value == "" ==> PropertyGet(props[key := value], key, default) == default
    ensures other != key ==> PropertyGet(props[key := value], other, default) == PropertyGet(props, other, default)
  {
  }

  /** getIFProperties' keys: "net.<ifname>.gw", ".dns1" and ".dns2". */
  function IfGatewayKey(ifname: string): string { "net." + ifname + ".gw" }
  function IfDns1Key(ifname: string): string { "net." + ifname + ".dns1" }
  function IfDns2Key(ifname: string): string { "net." + ifname + ".dns2" }

  /** The DNS servers of an interface as getIFProperties reads them ("" when unset). */
  function IfDns1(props: Props, ifname: string): string { PropertyGet(props, IfDns1Key(ifname), "") }
  function IfDns2(props: Props, ifname: string): string { PropertyGet(props, IfDns2Key(ifname), "") }

  /**
   * setDNS: each of net.dns1 and net.dns2 takes the requested server, or the
   * interface's own server when none was requested; then net.dnschange (default
   * "0") is bumped by one.
   */
  function SetDnsProps(props: Props, o: NetworkParams): (q: Props)
    ensures q.Keys == props.Keys + {"net.dns1", "net.dns2", "net.dnschange"}
  {
    var p1 := DnsServersWritten(props, o);
    p1["net.dnschange" := IntToString(Atoi(PropertyGet(p1, "net.dnschange", "0")) + 1)]
  }

  /** The servers setDNS publishes, before net.dnschange is bumped. */
  function DnsServersWritten(props: Props, o: NetworkParams): Props
  {
    var dns1 := if o.dns1Str == "" then IfDns1(props, o.ifname) else o.dns1Str;
    var dns2 := if o.dns2Str == "" then IfDns2(props, o.ifname) else o.dns2Str;
    props["net.dns1" := dns1]["net.dns2" := dns2]
  }

  lemma SetDnsServers(props: Props, o: NetworkParams)
    ensures var q := SetDnsProps(props, o);
      && q["net.dns1"] == (if o.dns1Str != "" then o.dns1Str else IfDns1(props, o.ifname))
      && q["net.dns2"] == (if o.dns2Str != "" then o.dns2Str else IfDns2(props, o.ifname))
  {
    assert SetDnsProps(props, o) == DnsServersWritten(props, o)["net.dnschange" := SetDnsProps(props, o)["net.dnschange"]];
  }

  lemma SetDnsCounter(props: Props, o: NetworkParams)
    ensures Atoi(PropertyGet(SetDnsProps(props, o), "net.dnschange", "0")) == Atoi(PropertyGet(props, "net.dnschange", "0")) + 1
  {
    var p1 := DnsServersWritten(props, o);
    assert PropertyGet(p1, "net.dnschange", "0") == PropertyGet(props, "net.dnschange", "0");
    var n := Atoi(PropertyGet(p1, "net.dnschange", "0")) + 1;
    assert SetDnsProps(props, o) == p1["net.dnschange" := IntToString(n)];
    AtoiIntToString(n);
  }

  lemma SetDnsFrame(props: Props, o: NetworkParams)
    ensures var q := SetDnsProps(props, o);
      && (forall k :: k in props && k != "net.dns1" && k != "net.dns2" && k != "net.dnschange"
            ==> k in q && q[k] == props[k])
      && q.Keys == props.Keys + {"net.dns1", "net.dns2", "net.dnschange"}
  {
    var p1 := DnsServersWritten(props, o);
    assert SetDnsProps(props, o) == p1["net.dnschange" := SetDnsProps(props, o)["net.dnschange"]];
  }

  /**
   * setDNS publishes the requested servers, falls back to the interface's servers
   * key by key, counts the change, and touches no other property.
   */
  lemma SetDnsEffect(props: Props, o: NetworkParams)
    ensures var q := SetDnsProps(props, o);
      && q["net.dns1"] == (if o.dns1Str != "" then o.dns1Str else IfDns1(props, o.ifname))
      && q["net.dns2"] == (if o.dns2Str != "" then o.dns2Str else IfDns2(props, o.ifname))
      && Atoi(PropertyGet(q, "net.dnschange", "0")) == Atoi(PropertyGet(props, "net.dnschange", "0")) + 1
      && (forall k :: k in props && k != "net.dns1" && k != "net.dns2" && k != "net.dnschange"
            ==> k in q && q[k] == props[k])
      && q.Keys == props.Keys + {"net.dns1", "net.dns2", "net.dnschange"}
  {
    SetDnsServers(props, o);
    SetDnsCounter(props, o);
    SetDnsFrame(props, o);
  }
}
