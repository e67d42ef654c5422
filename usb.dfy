/**
 * Switching the USB rndis function: the function list enableUsbRndis writes to
 * sys.usb.config, its write-if-different rule, and the bounded poll of
 * sys.usb.state that checkUsbRndisState performs.
 */
module Usb {
  import opened Wrappers
  import opened CText
  import opened Helpers
  import opened Protocol
  import opened Params
  import opened Properties

  const PersistSysUsbConfigProperty := "persist.sys.usb.config"
  const SysUsbConfigProperty := "sys.usb.config"
  const SysUsbStateProperty := "sys.usb.state"
  const UsbFunctionRndis := "rndis"
  const UsbFunctionAdb := "adb"
  /** Re-samples of sys.usb.state after the first (100 ms apart in the running system). */
  const UsbFunctionRetryTimes: nat := 20

  // ---------------------------------------------------------------------------
  // enableUsbRndis
  // ---------------------------------------------------------------------------

  /**
   * The function list enableUsbRndis asks for: "rndis", then "adb" when the
   * persisted list has it, when turning rndis on; the persisted list when off.
   */
  function UsbConfigFuncs(enable: bool, persistConfig: string): (fs: seq<string>)
    ensures forall i :: 0 <= i < |fs| ==> |fs[i]| > 0 && Avoids(fs[i], UsbConfigDelimit)
    ensures enable ==> 1 <= |fs| <= 2 && fs[0] == UsbFunctionRndis
    ensures enable ==> (UsbFunctionAdb in fs <==> UsbFunctionAdb in Tokens(persistConfig, UsbConfigDelimit))
  {
    var persistFuncs := Tokens(persistConfig, UsbConfigDelimit);
    if enable then [UsbFunctionRndis] + (if UsbFunctionAdb in persistFuncs then [UsbFunctionAdb] else [])
    else persistFuncs
  }

  /** The comma-joined list enableUsbRndis compares with, and writes to, sys.usb.config. */
  function NewUsbConfig(props: Props, enable: bool): string
  {
    JoinSpec(UsbConfigFuncs(enable, PropertyGet(props, PersistSysUsbConfigProperty, "")), UsbConfigDelimit)
  }

  /** The property store after enableUsbRndis: sys.usb.config is written only when it differs. */
  function UsbConfigUpdate(props: Props, enable: bool): (q: Props)
    ensures PropertyGet(q, SysUsbConfigProperty, "") == NewUsbConfig(props, enable)
    ensures q.Keys <= props.Keys + {SysUsbConfigProperty}
    ensures forall k :: k in props && k != SysUsbConfigProperty ==> k in q && q[k] == props[k]
  {
    var newConfig := NewUsbConfig(props, enable);
    if PropertyGet(props, SysUsbConfigProperty, "") != newConfig then props[SysUsbConfigProperty := newConfig]
    else props
  }

  /** When on, the new list is exactly "rndis" or "rndis,adb", the latter iff adb was persisted. */
  lemma EnableConfig(props: Props)
    ensures var persisted := Tokens(PropertyGet(props, PersistSysUsbConfigProperty, ""), UsbConfigDelimit);
      NewUsbConfig(props, true) == if UsbFunctionAdb in persisted then "rndis,adb" else "rndis"
  {
    EnableConfigOf(PropertyGet(props, PersistSysUsbConfigProperty, ""));
  }

  lemma EnableConfigOf(persistConfig: string)
    ensures JoinSpec(UsbConfigFuncs(true, persistConfig), UsbConfigDelimit)
            == if UsbFunctionAdb in Tokens(persistConfig, UsbConfigDelimit) then "rndis,adb" else "rndis"
  {
    if UsbFunctionAdb in Tokens(persistConfig, UsbConfigDelimit) {
      JoinPair(UsbConfigFuncs(true, persistConfig));
    } else {
      JoinSingle(UsbConfigFuncs(true, persistConfig));
    }
  }

  lemma JoinPair(fs: seq<string>)
    requires fs == ["rndis", "adb"]
    ensures JoinSpec(fs, UsbConfigDelimit) == "rndis,adb"
  {
    assert JoinSpec(fs, ",") == "rndis" + "," + JoinSpec(["adb"], ",");
  }

  lemma JoinSingle(fs: seq<string>)
    requires fs == ["rndis"]
    ensures JoinSpec(fs, UsbConfigDelimit) == "rndis"
  {
  }

  /**
   * When off, the new list read back function by function is the persisted list:
   * the persisted setting is restored, up to empty entries between commas.
   */
  lemma DisableRestoresPersisted(props: Props)
    ensures Tokens(NewUsbConfig(props, false), UsbConfigDelimit)
         == Tokens(PropertyGet(props, PersistSysUsbConfigProperty, ""), UsbConfigDelimit)
  {
    SplitJoin(Tokens(PropertyGet(props, PersistSysUsbConfigProperty, ""), UsbConfigDelimit), UsbConfigDelimit);
  }

  /** Whether a function list, as a property value, names rndis. */
  predicate RndisPresent(state: string)
  {
    UsbFunctionRndis in Tokens(state, UsbConfigDelimit)
  }

  /** After turning rndis on the configured list names it; after turning it off, only if persisted. */
  lemma NewConfigRndis(props: Props)
    ensures RndisPresent(NewUsbConfig(props, true))
    ensures RndisPresent(NewUsbConfig(props, false)) <==> RndisPresent(PropertyGet(props, PersistSysUsbConfigProperty, ""))
  {
    EnableConfig(props);
    var persisted := Tokens(PropertyGet(props, PersistSysUsbConfigProperty, ""), UsbConfigDelimit);
    var on := if UsbFunctionAdb in persisted then ["rndis", "adb"] else ["rndis"];
    SplitJoin(on, UsbConfigDelimit);
    assert JoinSpec(on, ",") == NewUsbConfig(props, true) by {
      if UsbFunctionAdb in persisted { JoinPair(on); } else { JoinSingle(on); }
    }
    assert on[0] == UsbFunctionRndis;
    DisableRestoresPersisted(props);
  }

  /**
   * Afterwards sys.usb.config holds the new list; nothing else changes, and the
   * store is untouched exactly when the list was already current.
   */
  lemma UsbConfigUpdateEffect(props: Props, enable: bool)
    ensures var q := UsbConfigUpdate(props, enable);
      && PropertyGet(q, SysUsbConfigProperty, "") == NewUsbConfig(props, enable)
      && (forall k :: k != SysUsbConfigProperty ==> (k in q <==> k in props) && (k in props ==> q[k] == props[k]))
      && (q == props <==> PropertyGet(props, SysUsbConfigProperty, "") == NewUsbConfig(props, enable))
  {
    var newConfig := NewUsbConfig(props, enable);
    if PropertyGet(props, SysUsbConfigProperty, "") != newConfig {
      var q := UsbConfigUpdate(props, enable);
      assert q[SysUsbConfigProperty] == newConfig;
      assert q != props by {
        assert PropertyGet(q, SysUsbConfigProperty, "") != PropertyGet(props, SysUsbConfigProperty, "");
      }
    }
  }

  /** Writing the list a second time changes nothing: enableUsbRndis is idempotent on the store. */
  lemma UsbConfigUpdateIdempotent(props: Props, enable: bool)
    ensures UsbConfigUpdate(UsbConfigUpdate(props, enable), enable) == UsbConfigUpdate(props, enable)
  {
    var q := UsbConfigUpdate(props, enable);
    UsbConfigUpdateEffect(props, enable);
    assert PropertyGet(q, PersistSysUsbConfigProperty, "") == PropertyGet(props, PersistSysUsbConfigProperty, "");
    assert NewUsbConfig(q, enable) == NewUsbConfig(props, enable);
  }

  // ---------------------------------------------------------------------------
  // checkUsbRndisState
  // ---------------------------------------------------------------------------

  /** Whether each sample of sys.usb.state lists rndis; observe(k) is the value read when the counter is k. */
  function RndisSamples(observe: nat -> string): nat -> bool
  {
    (k: nat) => RndisPresent(observe(k))
  }

  /**
   * The sample (an index of the shared retry counter) at which checkUsbRndisState
   * sees the wanted rndis state, starting from retry; None when it gives up.
   * present(k) tells whether sample k lists rndis.
   */
  function Poll(enable: bool, present: nat -> bool, retry: nat): (k: Option<nat>)
    ensures k.Some? ==> retry <= k.value && (k.value == retry || k.value <= UsbFunctionRetryTimes)
    ensures k.Some? ==> Matches(enable, present, k.value)
    decreases if retry < UsbFunctionRetryTimes then UsbFunctionRetryTimes - retry else 0
  {
    if Matches(enable, present, retry) then Some(retry)
    else if retry < UsbFunctionRetryTimes then Poll(enable, present, retry + 1)
    else None
  }

  /** Sample k shows rndis present exactly when it was asked for. */
  predicate Matches(enable: bool, present: nat -> bool, k: nat)
  {
    present(k) == enable
  }

  /** The result checkUsbRndisState posts: mEnable echoed with success, or mResult false. */
  function PollReport(o: NetworkParams, k: Option<nat>): NetworkResult
  {
    if k.Some? then Tagged(o, EmptyResult.(enable := Some(o.enable), result := Some(true)))
    else Tagged(o, EmptyResult.(result := Some(false)))
  }

  /** The sample the poller answers on matches, and every sample before it (from retry on) did not. */
  lemma {:induction false} PollFirstMatch(enable: bool, present: nat -> bool, retry: nat)
    requires retry <= UsbFunctionRetryTimes
    ensures var k := Poll(enable, present, retry);
      k.Some? ==> && retry <= k.value <= UsbFunctionRetryTimes
                  && Matches(enable, present, k.value)
                  && forall j :: retry <= j < k.value ==> !Matches(enable, present, j)
    decreases UsbFunctionRetryTimes - retry
  {
    if Matches(enable, present, retry) {
      assert Poll(enable, present, retry) == Some(retry);
    } else if retry < UsbFunctionRetryTimes {
      assert Poll(enable, present, retry) == Poll(enable, present, retry + 1);
      PollFirstMatch(enable, present, retry + 1);
    } else {
      assert Poll(enable, present, retry) == None;
    }
  }

  /** The poller gives up exactly when none of the samples from retry through 20 matches. */
  lemma {:induction false} PollGivesUp(enable: bool, present: nat -> bool, retry: nat)
    requires retry <= UsbFunctionRetryTimes
    ensures Poll(enable, present, retry).None? <==>
      forall j :: retry <= j <= UsbFunctionRetryTimes ==> !Matches(enable, present, j)
    decreases UsbFunctionRetryTimes - retry
  {
    if Matches(enable, present, retry) {
      assert Poll(enable, present, retry) == Some(retry);
    } else if retry < UsbFunctionRetryTimes {
      assert Poll(enable, present, retry) == Poll(enable, present, retry + 1);
      PollGivesUp(enable, present, retry + 1);
    } else {
      assert retry == UsbFunctionRetryTimes;
      assert Poll(enable, present, retry) == None;
    }
  }

  /**
   * From a reset counter there are at most 21 samples: the first, then at most
   * 20 retries.  A state that is already right is reported on the first sample.
   */
  lemma PollBound(enable: bool, present: nat -> bool)
    ensures Poll(enable, present, 0).Some? ==> Poll(enable, present, 0).value < UsbFunctionRetryTimes + 1
    ensures Matches(enable, present, 0) ==> Poll(enable, present, 0) == Some(0)
  {
    PollFirstMatch(enable, present, 0);
  }

  /** Success echoes the requested state; giving up reports mResult false without mEnable. */
  lemma PollReportShape(o: NetworkParams, k: Option<nat>)
    ensures PollReport(o, k).id == Some(o.id)
    ensures PollReport(o, k).result == Some(k.Some?)
    ensures k.Some? ==> PollReport(o, k).enable == Some(o.enable)
    ensures k.None? ==> PollReport(o, k).enable.None?
  {
  }
}
