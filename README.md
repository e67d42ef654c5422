# netd command-chain engine of NetworkUtils

A Dafny model of the engine in `dom/system/gonk/NetworkUtils.cpp` and
`dom/system/gonk/NetworkUtils.h` that drives the netd daemon on behalf of the
network manager. It models:

- how netd response codes are classified;
- the single-outstanding-command dispatch queue;
- the parse of netd's reply lines;
- the command chains, which the trampoline `next` walks step by step;
- the step functions, the success and error handlers, and the static chain tables;
- how a request is turned into a chain;
- the switching of the USB rndis function;
- the DNS property writes;
- the small string and bit helpers.

## Layout

| file | module | contents |
|---|---|---|
| `wrappers.dfy` | `Wrappers` | the `Option` type |
| `ctext.dfy` | `CText` | the C routines the engine builds on: `strtok` with its saved position explicit, `atoi`, `%d` formatting and `nsString::Find` |
| `helpers.dfy` | `Helpers` | `split`, `join` and `getMaskLength` as methods with loops, each proved against a specification function, plus the split/join inverse |
| `protocol.dfy` | `Protocol` | response codes and their classifiers, the parse of a reply line, the wire form of a command in both dialects, and the broadcast topics |
| `params.dfy` | `Params` | `NetworkParams`, the request options, result records and both `NetworkParams` constructors |
| `props.dfy` | `Properties` | the system property store as a map, `property_get` defaulting, `getIFProperties` keys, and `setDNS`'s writes |
| `steps.dfy` | `Steps` | the step functions, success handlers and error handlers as closed datatypes, with their pure meaning (`StepAction`, `FailAction`), the chain tables and the per-step rules |
| `chain.dfy` | `Chain` | the `CommandChain` class (cursor, parameters, table, error handler) and `Advance`, the pure meaning of one call of `next` on a success |
| `usb.dfy` | `Usb` | the function list `enableUsbRndis` writes, and the bounded poll of `checkUsbRndisState` |
| `dispatch.dfy` | `Dispatch` | the dispatch state as a value and its transitions: enqueue, drain, post, run, the whole of `next`; the engine's invariants |
| `requests.dfy` | `Requests` | the requests `ExecuteCommand` recognises, their names, which table and error handler each runs, and the parameters it derives first |
| `engine.dfy` | `Engine` | the `NetworkUtils` class, whose fields are the process-wide globals, with the dispatch, trampoline, reply, USB and request methods, each proved against the pure transitions above |

## How the pieces fit

- **Engine state.** The process-wide globals become fields of `Engine.NetworkUtils`:
  - `gCommandQueue`, `gPending`, `gCurrentCallback`, `gCurrentChain`, `gCurrentCommand` and `gReason`;
  - the static `retry` counter of `checkUsbRndisState`;
  - the property store;
  - the SDK ≥ 16 flag, read once by the constructor.
- **Output.** Everything the engine hands to the netd transport, and every result it posts to the main thread, is appended to one `log`, in order.
- **Proof shape.** Each method is proved against a pure transition of `Dispatch`:
  - `NextNetdCommand` against `Drain`;
  - `Next` against `NextSpec`;
  - `OnNetdMessage` against a composition of these.
- **Invariant.** `Valid()` is preserved by every event. It says:
  - at most one command is outstanding: the number of sends is the number of final replies plus one when pending;
  - the queue never stalls;
  - a callback is only set together with a chain;
  - the poller counter is reset.

A chain's parameters are a field of its `CommandChain` object. The step that
records something (`getTxBytes`, `postTetherInterfaceList`) writes it there, so
later steps see the write, as with `getParams()`. The callback stored with
queued commands is always `next` in the source, so only the chain is kept.

Some behaviour of the code is easy to miss. The model keeps it as written:

- `INTERFACE_DELIMIT` is `"\0"`, an empty C string. As a result:
  - `join` with it concatenates the gathered reasons;
  - `split` with it yields the whole reply as one interface;
  - a chain that starts from an empty interface list never takes the "more than one interface" skip branches of `setIpForwardingEnabled` and `stopTethering` (`Steps.SkipUnreachableFromEmptyList`).
- The poller samples `sys.usb.state` at most 21 times: the first sample and then 20 retries (`Usb.PollBound`).
- `gReason` is cleared only when a callback is set. A final reply that arrives before any command was ever sent keeps its reason gathered.
- `gCurrentCallback` is never reset, so a final reply calls the last chain's callback whether or not a command is pending. The source then uses a chain that may have been deleted; the model requires that chain to be live (`requires` of `OnNetdMessage`) and leaves the other case out.

## Model

| member | source | states |
|---|---|---|
| CText.Strtok | dom/system/gonk/NetworkUtils.cpp:228-235 | strtok returns no token exactly when only delimiters remain; a token is non-empty and free of delimiters, and the text it resumes from is shorter than its input |
| CText.Tokens | dom/system/gonk/NetworkUtils.cpp:228-235 | every token of repeated strtok calls is non-empty and free of delimiters |
| CText.Atoi | dom/system/gonk/NetworkUtils.cpp:862 | digits after leading white space read as a non-negative number |
| CText.AtoiDigitsThen | dom/system/gonk/NetworkUtils.cpp:785 | a run of digits followed by anything that is not a digit reads as the value of those digits |
| CText.AtoiNegativeDigitsThen | dom/system/gonk/NetworkUtils.cpp:785 | a minus sign, digits and then a non-digit read as the negated value of the digits |
| CText.AtoiPrinted | dom/system/gonk/NetworkUtils.cpp:953-957 | a number printed with "%d" and followed by a non-digit reads back as that number |
| CText.DecimalValueOfNatToString | dom/system/gonk/NetworkUtils.cpp:956 | the digits "%u" prints have the printed value |
| CText.AtoiIntToString | dom/system/gonk/NetworkUtils.cpp:953-957 | atoi reads a number printed with "%d" back as that number, so the dnschange round trip is exact |
| CText.ContainsAt | dom/system/gonk/NetworkUtils.cpp:532 | Find succeeds when the text occurs at any position |
| CText.ContainsWitness | dom/system/gonk/NetworkUtils.cpp:532 | Find succeeds only when the text occurs at some position |
| Helpers.Split | dom/system/gonk/NetworkUtils.cpp:228-235 | the strtok loop collects exactly the tokens strtok yields, in order |
| Helpers.Join | dom/system/gonk/NetworkUtils.cpp:240-249 | the strcpy/strcat loop yields the elements with the separator between neighbours |
| Helpers.JoinSpec | dom/system/gonk/NetworkUtils.cpp:240-249 | a join of n ≥ 1 elements is as long as the elements together plus n-1 separators |
| Helpers.JoinSnoc | dom/system/gonk/NetworkUtils.cpp:244-247 | appending one element to a join appends the separator and that element |
| Helpers.StrtokAfterDelims | dom/system/gonk/NetworkUtils.cpp:230-233 | leading delimiters never change the next token |
| Helpers.StrtokWord | dom/system/gonk/NetworkUtils.cpp:230-233 | a word followed by a separator comes back as one token, and strtok resumes after that one separator |
| Helpers.SplitJoin | dom/system/gonk/NetworkUtils.cpp:228-249 | split undoes join for a non-empty separator and non-empty elements free of the separator |
| Helpers.TokensNoDelims | dom/system/gonk/NetworkUtils.cpp:67 | with the empty delimiter, split yields the whole string as a single token, or nothing for "" |
| Helpers.JoinNoSep | dom/system/gonk/NetworkUtils.cpp:67 | with the empty separator, join concatenates, and its length is the sum of the lengths |
| Helpers.SplitJoinNoSep | dom/system/gonk/NetworkUtils.cpp:67 | splitting a join with the empty separator gives at most one element, and none exactly when every part is empty |
| Helpers.ShiftedLeftAll | dom/system/gonk/NetworkUtils.cpp:214-223 | thirty-two left shifts clear every bit, so the shift loop stops |
| Helpers.GetMaskLength | dom/system/gonk/NetworkUtils.cpp:214-223 | the count is at most 32, the top count bits of the mask are set, and the next bit is clear |
| Helpers.PrefixLengthUnique | dom/system/gonk/NetworkUtils.cpp:214-223 | a mask has only one such count |
| Protocol.ClassifiersByHundreds | dom/system/gonk/NetworkUtils.cpp:75-102 | complete iff code/100 ≠ 1; proceeding iff code/100 = 1, the negation of complete; error iff code/100 ∉ {1,2}; broadcast iff code/100 = 6; a broadcast is an error and complete |
| Protocol.ParseReply | dom/system/gonk/NetworkUtils.cpp:856-868 | there is no code token exactly when the line is all spaces; a 6xx code is a broadcast and any other code a reply; before SDK 16 a reply's reason is empty |
| Protocol.ParseReplyLine | dom/system/gonk/NetworkUtils.cpp:862-868 | under SDK ≥ 16, a line of code, sequence number and reason parses back to that code and exactly that reason, spaces included |
| Protocol.WireSequenceToken | dom/system/gonk/NetworkUtils.cpp:162-179 | under SDK ≥ 16 the wire text is the token "0" followed by the command verbatim, with size length + 1 (the command's length + 3); otherwise it is the command verbatim with size length + 1 |
| Protocol.Wire | dom/system/gonk/NetworkUtils.cpp:162-179 | the command ends the wire text verbatim, after the two characters of the sequence number in the SDK ≥ 16 dialect, and the size counts the terminating NUL |
| Protocol.BroadcastTopic | dom/system/gonk/NetworkUtils.cpp:192-209 | only a 6xx code can be posted |
| Protocol.BroadcastTopics | dom/system/gonk/NetworkUtils.cpp:192-209 | exactly the codes 600 and 601 post, to two different topics |
| Params.OptString | dom/system/gonk/NetworkUtils.h:87-97 | an absent option and the literal "null" become "", and any other value is kept |
| Params.OptionsToParams | dom/system/gonk/NetworkUtils.h:76-155 | no string field of the result is "null", and the interface list starts empty |
| Params.AppendSequence | dom/system/gonk/NetworkUtils.h:78-86 | the macro's loop appends every passed element, in order, to the list |
| Params.FromOptions | dom/system/gonk/NetworkUtils.h:76-155 | the options constructor yields `OptionsToParams` of its argument |
| Params.OptionsScalarDefaults | dom/system/gonk/NetworkUtils.h:105-149 | unpassed scalars default to report false, isAsync true, enabled false, enable false, and rxBytes, txBytes and threshold -1 |
| Params.OptionsScalarsPassed | dom/system/gonk/NetworkUtils.h:105-149 | id and cmd are copied; each of report, isAsync, enabled, enable, rxBytes, txBytes and threshold keeps the value passed for it |
| Params.OptionsSequences | dom/system/gonk/NetworkUtils.h:78-131 | the host names and the interface list options both land, in that order, in the host names, and the interface list stays empty |
| Params.OptionsNullIsAbsent | dom/system/gonk/NetworkUtils.h:87-97 | two option sets that differ only in passing some string members as "null" where the other leaves them out build the same parameters, for all thirty-two string members |
| Params.CopyParams | dom/system/gonk/NetworkUtils.h:30-74 | the copy constructor yields a copy equal to the original |
| Properties.SetDnsServers | dom/system/gonk/NetworkUtils.cpp:934-950 | net.dns1 and net.dns2 take the requested servers, falling back to the interface's servers one by one |
| Properties.SetDnsCounter | dom/system/gonk/NetworkUtils.cpp:951-957 | net.dnschange read with atoi (default "0") grows by exactly one |
| Properties.SetDnsFrame | dom/system/gonk/NetworkUtils.cpp:934-960 | no other property changes, and only the three DNS keys can be added |
| Properties.SetDnsEffect | dom/system/gonk/NetworkUtils.cpp:934-960 | the three facts above together: the whole effect of setDNS on the store |
| Properties.PropertyWriteRead | dom/system/gonk/NetworkUtils.cpp:254-263 | a non-empty value written to a key reads back as written, an empty one reads as the default, and other keys read as before |
| Properties.SetDnsProps | dom/system/gonk/NetworkUtils.cpp:934-960 | the store afterwards has exactly the old keys and the three DNS keys |
| Usb.EnableConfig | dom/system/gonk/NetworkUtils.cpp:1206-1221 | turning rndis on asks for "rndis,adb" when adb is persisted and "rndis" otherwise |
| Usb.DisableRestoresPersisted | dom/system/gonk/NetworkUtils.cpp:1212-1221 | turning rndis off asks for the persisted function list, function by function |
| Usb.NewConfigRndis | dom/system/gonk/NetworkUtils.cpp:1206-1221 | the list written on enable names rndis; the one written on disable names it iff the persisted list does |
| Usb.UsbConfigUpdateEffect | dom/system/gonk/NetworkUtils.cpp:1219-1224 | afterwards sys.usb.config holds the new list and no other property changes; the store stays as it was exactly when the list was already current |
| Usb.UsbConfigUpdateIdempotent | dom/system/gonk/NetworkUtils.cpp:1219-1224 | writing the list a second time changes nothing |
| Usb.PollFirstMatch | dom/system/gonk/NetworkUtils.cpp:1138-1168 | the poller answers at the first sample, from the counter on, whose rndis presence equals mEnable, and never after sample 20 |
| Usb.PollGivesUp | dom/system/gonk/NetworkUtils.cpp:1138-1168 | it gives up exactly when no sample from the counter through 20 matches |
| Usb.PollBound | dom/system/gonk/NetworkUtils.cpp:1138-1168 | from a reset counter there are at most 21 samples, and a state that is already right is reported on the first |
| Usb.PollReportShape | dom/system/gonk/NetworkUtils.cpp:1149-1167 | success posts mResult true with mEnable echoed; giving up posts mResult false without mEnable; both are tagged with the request id |
| Usb.UsbConfigFuncs | dom/system/gonk/NetworkUtils.cpp:1201-1217 | every function named is non-empty and free of commas; turning rndis on asks for one or two functions, rndis first, with adb exactly when the persisted list has it |
| Usb.UsbConfigUpdate | dom/system/gonk/NetworkUtils.cpp:1219-1224 | afterwards sys.usb.config reads as the new list; no key but sys.usb.config is added, and every other property keeps its value |
| Usb.Poll | dom/system/gonk/NetworkUtils.cpp:1138-1168 | an answer is a sample from the counter on, no later than sample 20 unless the counter was already past it, whose rndis presence equals mEnable |
| Steps.CatalogShapes | dom/system/gonk/NetworkUtils.cpp:583-776 | every operation's table ends in exactly one success handler, and the rollback tables have none |
| Steps.IpForwardingSkipRule | dom/system/gonk/NetworkUtils.cpp:486-503 | it sends "ipfwd enable" iff mEnable; "ipfwd disable" iff disabling with at most one interface listed; "tether status" iff disabling with more listed |
| Steps.StopTetheringSkipRule | dom/system/gonk/NetworkUtils.cpp:511-524 | it sends "tether stop" iff at most one interface is listed, and "tether status" iff more are |
| Steps.StartTetheringSkipRule | dom/system/gonk/NetworkUtils.cpp:526-546 | it sends "tether status" when the prior reason contains "started"; otherwise it sends "tether start" with the Wi-Fi range, followed by the USB range only when both USB addresses are set |
| Steps.StartTetheringAlreadyStarted | dom/system/gonk/NetworkUtils.cpp:532-533 | "started" anywhere in the reason gives "tether status", in both dialects |
| Steps.StepFrame | dom/system/gonk/NetworkUtils.cpp:271-578 | a step changes no parameter except the receive counter (getTxBytes) and the interface list (postTetherInterfaceList) |
| Steps.SkipSteps | dom/system/gonk/NetworkUtils.cpp:279-309 | exactly the access-point driver steps under SDK ≥ 16 skip, with code 0 and reason ""; exactly the success handlers finish |
| Steps.FinishTagged | dom/system/gonk/NetworkUtils.cpp:613-702 | a success handler posts for the chain's request id |
| Steps.TxBytesReadsRxReply | dom/system/gonk/NetworkUtils.cpp:386-395 | getTxBytes records, as the receive count, the number the previous reply printed |
| Steps.StatsSuccessCounters | dom/system/gonk/NetworkUtils.cpp:651-656 | the stats handler posts the stored receive count and, as the transmit count, the number the last reply printed |
| Steps.QuotaIsZero | dom/system/gonk/NetworkUtils.cpp:409-415 | setQuota always sends "bandwidth setiquota <ifname> 0" |
| Steps.QuotaArgumentIsAtoll | dom/system/gonk/NetworkUtils.cpp:412 | atoll of the hexadecimal quota literal stops at the 'x' and prints as "0" |
| Steps.InterfaceListGrowsByAtMostOne | dom/system/gonk/NetworkUtils.cpp:472-484 | with the empty delimiter the step keeps the list and appends at most one element, the whole non-empty reason |
| Steps.SkipUnreachableFromEmptyList | dom/system/gonk/NetworkUtils.cpp:472-524 | from an empty list, stopTethering afterwards sends "tether stop", and setIpForwardingEnabled "ipfwd disable" when disabling |
| Steps.InterfaceListWithDelimiter | dom/system/gonk/NetworkUtils.cpp:481 | with a real delimiter, a reply joining two or more names would list more than one interface |
| Steps.WifiRollbackKeepsEnable | dom/system/gonk/NetworkUtils.cpp:602-611 | the Wi-Fi handler posts the failure, clears mEnable on the result only, and rolls back with the chain's parameters unchanged |
| Steps.WifiRollbackReenablesForwarding | dom/system/gonk/NetworkUtils.cpp:583-611 | so after a failed enable, the rollback's second step sends "ipfwd enable" |
| Steps.UsbRollbackClearsEnable | dom/system/gonk/NetworkUtils.cpp:619-638 | the USB handler posts the failure, clears mEnable on the parameters, rolls back with them, and turns rndis off |
| Steps.UsbRollbackDisablesForwarding | dom/system/gonk/NetworkUtils.cpp:587-638 | so the USB rollback's second step sends "ipfwd disable" when at most one interface is listed |
| Steps.FailurePosted | dom/system/gonk/NetworkUtils.cpp:602-697 | every handler posts the code, reason and error flag it received, tagged with the request id; only the tethering handlers roll back; only the USB one turns rndis off; setDhcpServerFail adds mSuccess false |
| Steps.StepAction | dom/system/gonk/NetworkUtils.cpp:271-702 | a step finishes exactly when it is a success handler, and then posts for the chain's request id; a skip passes code 0 and an empty reason; a command step sends a non-empty command |
| Steps.StepParams | dom/system/gonk/NetworkUtils.cpp:386-484 | a step never shrinks the interface list, only getTxBytes changes the receive counter, and only getTxBytes and postTetherInterfaceList change the parameters at all |
| Steps.StepCommand | dom/system/gonk/NetworkUtils.cpp:271-578 | the command text is empty exactly for the success handlers |
| Steps.SuccessPost | dom/system/gonk/NetworkUtils.cpp:613-702 | a success handler posts for the chain's request id and passes on the code, reason and error flag it was called with |
| Steps.FailAction | dom/system/gonk/NetworkUtils.cpp:602-697 | a failure handler posts for the request id with the code and error flag it received; a rollback runs on the handler's parameters; only a rolling-back handler turns rndis off |
| Chain.CommandChain.constructor | dom/system/gonk/NetworkUtils.h:211-220 | the cursor starts at -1, with the given parameters, table and error handler |
| Chain.CommandChain.GetNextCommand | dom/system/gonk/NetworkUtils.h:228-233 | the cursor advances by exactly one, and the step there is returned, or NULL past the end |
| Chain.KthCall | dom/system/gonk/NetworkUtils.h:211-233 | the k-th call returns step k-1 for k ≤ length, and NULL on every later call |
| Chain.AdvanceStops | dom/system/gonk/NetworkUtils.cpp:121-139 | `next` on a success stops at the first step after the cursor that does not skip (only SDK ≥ 16 access-point driver steps are passed over): it issues that step's command, posts there if it is a success handler, or runs off the end |
| Chain.AdvanceNoSkip | dom/system/gonk/NetworkUtils.cpp:132-138 | without skips, exactly the step after the cursor runs |
| Chain.AdvancePastEnd | dom/system/gonk/NetworkUtils.cpp:132-136 | past the last step, `next` only deletes the chain |
| Chain.Advance | dom/system/gonk/NetworkUtils.cpp:121-139 | the cursor moves forward; a command is issued only at a step inside the table that is not a success handler, and a post only at a success handler |
| Chain.AdvanceSkip | dom/system/gonk/NetworkUtils.cpp:279-309 | a skipping step hands the trampoline on to the next step, with code 0 and an empty reason |
| Chain.AdvanceNext | dom/system/gonk/NetworkUtils.cpp:121-139 | in a table that ends in its one success handler, a call from before the handler stops at the first non-skipping position after the cursor, and finishes exactly when that is the handler |
| Chain.NonSkippingEnds | dom/system/gonk/NetworkUtils.cpp:707-776 | the non-skipping positions of such a table, from any point up to the handler, end at the handler and reach it only there |
| Chain.Fold | dom/system/gonk/NetworkUtils.cpp:121-139 | a run fed n successful replies makes between one and n calls of the trampoline |
| Chain.FoldEach | dom/system/gonk/NetworkUtils.cpp:121-139 | the i-th call of a run starts from the cursor and the parameters the previous call left, on the i-th reply |
| Chain.FoldPositions | dom/system/gonk/NetworkUtils.cpp:121-139 | a trampoline that always stops at the next reference position stops, over a whole run, exactly where the reference run does |
| Chain.TrampolineStopsAtNext | dom/system/gonk/NetworkUtils.cpp:121-139 | the trampoline of such a table stops at the next non-skipping position after every cursor before the handler |
| Chain.TracePositions | dom/system/gonk/NetworkUtils.cpp:121-139 | a run of such a table stops where the reference run over its non-skipping positions does |
| Chain.ExpectedShape | dom/system/gonk/NetworkUtils.cpp:121-139 | the reference run stops min(n, number of positions) times: with a command at each position before the handler and a post at the handler |
| Chain.RunMatchesReference | dom/system/gonk/NetworkUtils.cpp:121-139 | a run whose stops are the reference run's has that many calls, the i-th at the i-th position |
| Chain.WholeRun | dom/system/gonk/NetworkUtils.cpp:121-139 | a chain on a table that ends in its one success handler, fed only successes, sends its commands at the non-skipping steps in table order and posts once, at the handler, and never posts elsewhere |
| Chain.AdvanceFormats | dom/system/gonk/NetworkUtils.cpp:271-578 | the command one call issues is the one its step formats from the parameters and the reply it was given, with code 0 and an empty reason after skipped steps |
| Chain.TraceCommands | dom/system/gonk/NetworkUtils.cpp:121-578 | every command of a run is the one its step formats from the parameters the previous step left and the reply to the previous command |
| Chain.TetheringEnableFailsAtK | dom/system/gonk/NetworkUtils.cpp:707-735 | a Wi-Fi or USB tethering-enable chain whose k-th reply is the failure has sent exactly k commands, at the first k non-skipping steps |
| Chain.RollbackStarts | dom/system/gonk/NetworkUtils.cpp:583-590 | each rollback chain's first command is "softap stopap", with the parameters it was given |
| Chain.WifiEnableSkipsDriverStart | dom/system/gonk/NetworkUtils.cpp:279-348 | under SDK ≥ 16, the reply to the firmware reload moves a Wi-Fi enable straight to setAccessPoint's SDK ≥ 16 command |
| Chain.WifiEnableStartsDriverBeforeJellyBean | dom/system/gonk/NetworkUtils.cpp:279-293 | before SDK 16 the same reply sends "softap start <ifname>" |
| Requests.FirstNamed | dom/system/gonk/NetworkUtils.cpp:801-839 | a request found for a name carries that name |
| Requests.RequestOf | dom/system/gonk/NetworkUtils.cpp:801-839 | a request found for a name carries that name |
| Requests.ChainRequest | dom/system/gonk/NetworkUtils.cpp:707-839 | a request starts a chain exactly when it is one of the nine chained requests, and every table it starts ends in its one success handler |
| Requests.RequestOfName | dom/system/gonk/NetworkUtils.cpp:801-839 | every request's name selects that request: none is shadowed by an earlier test |
| Requests.StatsResetsCounters | dom/system/gonk/NetworkUtils.cpp:1042-1050 | the stats request starts with both counters at -1 and nothing else changed |
| Requests.DhcpStartCommands | dom/system/gonk/NetworkUtils.cpp:915-929 | starting the DHCP server configures the server address, the mask length and link "up", then starts tethering over the DHCP range |
| Requests.DhcpStopCommands | dom/system/gonk/NetworkUtils.cpp:915-929 | stopping it first sends "tether stop" |
| Requests.UpstreamDnsRule | dom/system/gonk/NetworkUtils.cpp:1086-1136 | the tethering requests take the external interface's DNS servers when set, keep the requested ones otherwise, and change nothing else |
| Dispatch.DrainIdle | dom/system/gonk/NetworkUtils.cpp:144-148 | nothing happens with an empty queue or a pending command |
| Dispatch.DrainSendsHead | dom/system/gonk/NetworkUtils.cpp:144-160 | otherwise exactly the head is removed and sent, its chain becomes current, and pending is set |
| Dispatch.DrainIdempotent | dom/system/gonk/NetworkUtils.cpp:144-160 | a second nextNetdCommand sends nothing |
| Dispatch.Enqueue | dom/system/gonk/NetworkUtils.cpp:176 | the command joins the end of the queued commands; nothing is sent and pending is unchanged |
| Dispatch.Drain | dom/system/gonk/NetworkUtils.cpp:144-160 | afterwards the queue is not waiting behind no outstanding command; the output only grows, by at most one entry |
| Dispatch.PipelineFifo | dom/system/gonk/NetworkUtils.cpp:144-190 | doCommand appends to the sequence of sent-then-queued commands, and neither a send nor a post reorders it, so netd receives the commands in issue order |
| Dispatch.ReplyResult | dom/system/gonk/NetworkUtils.cpp:894-902 | the callback gets the final code and a reason as long as all gathered reasons together; a single reason comes through unchanged |
| Dispatch.Run | dom/system/gonk/NetworkUtils.cpp:121-139 | `next` on a success moves the cursor forward, only adds to the output, and leaves the reasons alone |
| Dispatch.NextSpec | dom/system/gonk/NetworkUtils.cpp:121-139 | the output only grows and the reasons are untouched; on an error the chain is deleted with its cursor where it was; no property but sys.usb.config is added or changed |
| Dispatch.QueuedAppend | dom/system/gonk/NetworkUtils.cpp:176 | queuing appends the command at the end of the queued commands |
| Dispatch.DoCommandWhilePending | dom/system/gonk/NetworkUtils.cpp:162-179 | while a command is pending, doCommand only queues |
| Dispatch.DoCommandWhenIdle | dom/system/gonk/NetworkUtils.cpp:162-179 | when idle with an empty queue, doCommand sends at once |
| Dispatch.InitialSteady | dom/system/gonk/NetworkUtils.cpp:114-119 | the initial globals satisfy the invariant |
| Dispatch.DrainKeeps | dom/system/gonk/NetworkUtils.cpp:144-160 | a send leaves no stalled queue and keeps the balance and the wiring |
| Dispatch.PostKeeps | dom/system/gonk/NetworkUtils.cpp:181-190 | a post keeps the invariant |
| Dispatch.BroadcastKeeps | dom/system/gonk/NetworkUtils.cpp:192-209 | a broadcast keeps the invariant and leaves pending, the reasons, the callback and the chain alone |
| Dispatch.RunKeeps | dom/system/gonk/NetworkUtils.cpp:121-139 | `next` on a success keeps the invariant and leaves the reasons alone |
| Dispatch.NextKeeps | dom/system/gonk/NetworkUtils.cpp:121-139 | the whole of `next`, the error path included, keeps the invariant and leaves the reasons alone |
| Dispatch.FailureBeforeRollback | dom/system/gonk/NetworkUtils.cpp:602-638 | a failing tethering chain posts the failure before "softap stopap" of the rollback is queued |
| Engine.NetworkUtils.constructor | dom/system/gonk/NetworkUtils.cpp:778-788 | the dialect is SDK ≥ 16 exactly when atoi(ro.build.version.sdk), stored as uint32_t, is at least 16; the globals are empty; the invariant holds |
| Engine.NetworkUtils.NextNetdCommand | dom/system/gonk/NetworkUtils.cpp:144-160 | the new dispatch state is `Drain` of the old |
| Engine.NetworkUtils.DoCommand | dom/system/gonk/NetworkUtils.cpp:162-179 | the command in the dialect's wire form is queued for the chain, then drained |
| Engine.NetworkUtils.PostMessage | dom/system/gonk/NetworkUtils.cpp:181-190 | the result is appended to the output |
| Engine.NetworkUtils.SendBroadcastMessage | dom/system/gonk/NetworkUtils.cpp:192-209 | posts on the code's topic with broadcast true and an empty reason, or nothing |
| Engine.NetworkUtils.Next | dom/system/gonk/NetworkUtils.cpp:121-139 | the new state, store and chain are `NextSpec` of the old ones; a rollback chain exists exactly when a tethering handler ran, and that chain is new, has no handler, has the rollback table and the handler's parameters, and has passed its first step |
| Engine.NetworkUtils.Proceed | dom/system/gonk/NetworkUtils.cpp:132-138 | the new state and chain are `Run` of the old: the chain advances to its next non-skipping step |
| Engine.NetworkUtils.OnError | dom/system/gonk/NetworkUtils.cpp:123-128 | the handler's effect as `NextSpec` on an error, with its rollback chain described as for `Next` |
| Engine.NetworkUtils.RunChain | dom/system/gonk/NetworkUtils.cpp:597-600 | a new chain with the given table and handler, run once from cursor -1 with an empty result |
| Engine.NetworkUtils.OnNetdMessage | dom/system/gonk/NetworkUtils.cpp:851-910 | no token: only a send is tried; 6xx: broadcast, then a send is tried; 1xx: only the reason is gathered; final: pending is cleared, the callback gets the code, the error flag and every gathered reason joined, the reasons are cleared, and the next send is tried; the invariant is kept. A rollback chain is returned exactly when the reply is a final error and the chain's handler rolls back. It is new, has no handler, holds the handler's rollback table at cursor 0, and starts from the parameters the handler gives it. It is the chain the rollback runs on. |
| Engine.NetworkUtils.OnReply | dom/system/gonk/NetworkUtils.cpp:882-909 | the reply half of the above, case by case, with the same rollback chain |
| Engine.NetworkUtils.Callback | dom/system/gonk/NetworkUtils.cpp:894-904 | the callback runs next on the current chain with the error flag and the gathered reasons joined, and the reasons are cleared; the dispatch invariant is kept; the rollback chain is as for OnReply |
| Engine.NetworkUtils.CheckUsbRndisState | dom/system/gonk/NetworkUtils.cpp:1138-1168 | posts `PollReport` of the poll from the current counter, and the counter ends at 0 |
| Engine.NetworkUtils.EnableUsbRndis | dom/system/gonk/NetworkUtils.cpp:1173-1232 | the store becomes `UsbConfigUpdate` of the old one; with mReport the poll's report is posted from the counter, otherwise nothing is posted |
| Engine.NetworkUtils.GetNetworkInterfaceStats | dom/system/gonk/NetworkUtils.cpp:1042-1050 | runs the stats table with both counters reset |
| Engine.NetworkUtils.SetNetworkInterfaceAlarm | dom/system/gonk/NetworkUtils.cpp:1052-1057 | runs the set-alarm table with the alarm handler |
| Engine.NetworkUtils.EnableNetworkInterfaceAlarm | dom/system/gonk/NetworkUtils.cpp:1059-1064 | runs the enable-alarm table with the alarm handler |
| Engine.NetworkUtils.DisableNetworkInterfaceAlarm | dom/system/gonk/NetworkUtils.cpp:1066-1071 | runs the disable-alarm table with the alarm handler |
| Engine.NetworkUtils.SetWifiOperationMode | dom/system/gonk/NetworkUtils.cpp:1076-1081 | runs the firmware-reload table |
| Engine.NetworkUtils.UpdateUpStream | dom/system/gonk/NetworkUtils.cpp:1237-1241 | runs the upstream table |
| Engine.NetworkUtils.SetDhcpServer | dom/system/gonk/NetworkUtils.cpp:915-929 | runs the start table with the DHCP fields moved into place when enabling, and the stop table otherwise |
| Engine.NetworkUtils.SetWifiTethering | dom/system/gonk/NetworkUtils.cpp:1086-1110 | runs the Wi-Fi enable or disable table with the upstream DNS servers |
| Engine.NetworkUtils.SetUsbTethering | dom/system/gonk/NetworkUtils.cpp:1112-1136 | runs the USB enable or disable table with the upstream DNS servers |
| Engine.NetworkUtils.UpstreamDns | dom/system/gonk/NetworkUtils.cpp:1088-1097 | the parameters with the external interface's non-empty DNS servers taken in |
| Engine.NetworkUtils.SetDns | dom/system/gonk/NetworkUtils.cpp:934-960 | the store becomes `SetDnsProps` of the old one (see `Properties.SetDnsEffect`) |
| Engine.NetworkUtils.StartChain | dom/system/gonk/NetworkUtils.cpp:801-839 | a chained request runs the table, handler and parameters `ChainRequest` gives |
| Engine.NetworkUtils.RunRequest | dom/system/gonk/NetworkUtils.cpp:801-839 | a known request's method: route requests change nothing modelled, DNS requests write the DNS properties, enableUsbRndis switches and polls, chained requests start their chain; the invariant is kept |
| Engine.NetworkUtils.ExecuteCommand | dom/system/gonk/NetworkUtils.cpp:797-846 | an unknown request changes nothing; a known one is served, then a synchronous one is answered with mRet true |

## Left out

- Route operations: `removeNetworkRoute`, `removeDefaultRoute`, `addHostRoute`, `removeHostRoute`, `removeHostRoutes` and the route half of `setDefaultRouteAndDNS` (NetworkUtils.cpp:965-1040) call into the route library, which is not part of this model; they are no-ops here.
- The netd transport (`SendNetdCommand`), `usleep` between polls, logging and `dumpParams` are left out. Sending is an entry in the output log.
- The values of `sys.usb.state` the poller reads are a parameter: `observe(k)` is the value read when the counter is `k`.
- `delete aChain` is the chain's `deleted` flag. A chain that ends in a success handler is never deleted, as in the source.
- Engine.NetworkUtils.OnNetdMessage: requires the current chain to be live when a final reply arrives. `Valid()` does not include this, so a caller must show it for every final reply, not only for stray ones. In the source a reply to a pending command always finds a live chain; after a stray reply the source uses a deleted chain, which the model does not capture.
- Engine.NetworkUtils.OnReply: has the same live-chain requirement as `OnNetdMessage`, for the same reason.
- The byte counters `mRxBytes` and `mTxBytes` are floats read with `atof`. Here they are integers read like `atoi`: the decimal prefix, without fractions or exponents.
- Steps.QuotaArgumentIsAtoll: `atoll` is modelled by the same decimal-prefix reader. `QuotaArgument` holds its value "0", and the lemma proves that this is what `atoll` makes of the literal.
- `mIndex` is a C `uint32_t` that starts at -1 (wrapped). The model keeps it as an integer from -1; `mIndex < mLength` on the wrapped value reads the same for every reachable cursor.
- The response code is stored modulo 2^32 (`Protocol.ToUint32`). A negative `atoi` result is not separately examined.
- `ntohl` in `getMaskLength` is the identity: the mask is taken in host order.
- The fixed buffers are not modelled: `BUF_SIZE`, `MAX_COMMAND_SIZE` and `PROPERTY_VALUE_MAX` truncation, and `sprintf`/`memcpy` overflow. Strings are unbounded.
- Steps.StepParams: `postTetherInterfaceList` copies the reason with `memcpy` into an uninitialised buffer and adds no terminator (NetworkUtils.cpp:478-481), so `split` may read past the reason. The model splits exactly the reason; `Steps.InterfaceListGrowsByAtMostOne` rests on the same reading.
- CText.Atoi: the C `int` range is not modelled. A number too large for `int` is read at its full value rather than with undefined behaviour.
- Properties.SetDnsCounter: `atoi(dnschange) + 1` is computed in C `int` (NetworkUtils.cpp:956). At `INT_MAX` this overflows; the model adds one without bound.
- `startTethering` formats the command into the buffer it reads from (NetworkUtils.cpp:541). The model takes the evident result: the USB range appended to the Wi-Fi range.
- UTF-8/UTF-16 conversion is left out.
- The default `NetworkParams()` constructor leaves its scalars uninitialised. Here they are false and 0 (`Params.BlankParams`); only `mEnable` and `mReport` of it are ever read, and both are set.
- `property_get` and `property_set` are reads and writes of a map. Property persistence and the property service are left out.
- `getErrorCallback` and `getParams` are plain accessors: the `onError` constant and the `params` field of `Chain.CommandChain`.
- Concurrency between the netd reader thread and the main thread is left out. Events are handled one at a time.
