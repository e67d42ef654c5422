/**
 * CommandChain: the parameters of one request, the table of steps that serves it,
 * its error handler, and a cursor that starts before the first step.  Beside the
 * class, the pure meaning of one call of the trampoline on a successful reply:
 * advance the cursor, skipping the steps that skip, until a step issues a command,
 * a success handler posts, or the table runs out.
 */
module Chain {
  import opened Wrappers
  import opened Params
  import opened Steps

  /** The step the cursor value i designates, NULL once i is past the end. */
  function Fetch(commands: seq<Step>, i: int): (f: Option<Step>)
    ensures f.Some? <==> 0 <= i < |commands|
    ensures f.Some? ==> f.value == commands[i]
  {
    if 0 <= i < |commands| then Some(commands[i]) else None
  }

  class CommandChain {
    /** mIndex: -1 before the first call of getNextCommand. */
    var index: int
    /** mParams: the chain's own copy, written by the steps that record something. */
    var params: NetworkParams
    const commands: seq<Step>
    const onError: Option<FailHandler>
    /** Set by `delete aChain`; a deleted chain must not be used again. */
    var deleted: bool

    constructor(p: NetworkParams, cmds: seq<Step>, err: Option<FailHandler>)
      ensures index == -1 && params == p && commands == cmds && onError == err && !deleted
    {
      index := -1;
      params := p;
      commands := cmds;
      onError := err;
      deleted := false;
    }

    /** getNextCommand: advance the cursor by one, then read the table there. */
    method GetNextCommand() returns (f: Option<Step>)
      modifies this`index
      ensures index == old(index) + 1
      ensures f == Fetch(commands, index)
    {
      index := index + 1;
      f := if 0 <= index < |commands| then Some(commands[index]) else None;
    }
  }

  /**
   * The k-th call of getNextCommand on a new chain returns step k - 1 while k is
   * at most the length of the table, and NULL on every later call.  The lemma is
   * stated at the cursor -1 + k: the constructor sets the cursor to -1, and each
   * call of GetNextCommand adds one to it and returns Fetch at the new cursor.
   */
  lemma KthCall(commands: seq<Step>, k: nat)
    requires k >= 1
    ensures k <= |commands| ==> Fetch(commands, -1 + k) == Some(commands[k - 1])
    ensures k > |commands| ==> Fetch(commands, -1 + k) == None
  {
  }

  /** Where one call of the trampoline leaves a chain that was told of a success. */
  datatype Progress<P, R> =
    | Issued(at: int, params: P, command: string)  // the step at `at` handed a command to doCommand
    | Finished(at: int, post: R)                               // the success handler at `at` posted
    | Exhausted(at: int)                                       // getNextCommand returned NULL: the chain is deleted

  /**
   * next(chain, false, r) from cursor index: fetch the next step and run it; a
   * skipping step calls next again at once with the result it set.
   */
  function Advance(commands: seq<Step>, index: int, p: NetworkParams, r: NetworkResult, jb: bool): (g: Progress<NetworkParams, NetworkResult>)
    ensures index < g.at
    ensures g.Issued? ==> 0 <= g.at < |commands| && !IsSuccessHandler(commands[g.at])
    ensures g.Finished? ==> 0 <= g.at < |commands| && IsSuccessHandler(commands[g.at])
    decreases |commands| - index
  {
    var k := index + 1;
    match Fetch(commands, k)
    case None => Exhausted(k)
    case Some(s) =>
      match StepAction(s, p, r, jb)
      case Command(q, c) => Issued(k, q, c)
      case Skip(r2) => Advance(commands, k, p, r2, jb)
      case Finish(post) => Finished(k, post)
  }

  /** Every step Advance passes over without stopping is one that skips. */
  predicate SkippedBetween(commands: seq<Step>, index: int, at: int, jb: bool)
  {
    && jb
    && forall j :: index < j < at && 0 <= j < |commands| ==>
         commands[j] == StartAccessPointDriver || commands[j] == StopAccessPointDriver
  }

  /**
   * The trampoline stops at the first step after the cursor that does not skip:
   * a command step issues its command there, a success handler posts there, and
   * running off the end deletes the chain.  Only the access-point driver steps of
   * the SDK >= 16 dialect are ever passed over; the parameters change only through
   * the step that issues.
   */
  lemma {:induction false} AdvanceStops(commands: seq<Step>, index: int, p: NetworkParams, r: NetworkResult, jb: bool)
    requires index >= -1
    ensures var g := Advance(commands, index, p, r, jb);
      && index < g.at
      && (g.at == index + 1 || SkippedBetween(commands, index, g.at, jb))
      && (g.Issued? || g.Finished? <==> g.at < |commands|)
      && (g.Exhausted? ==> g.at >= |commands|)
      && (g.Issued? ==> StepAction(commands[g.at], p, SkipChain(index, g.at, r), jb)
                          == Command(g.params, g.command))
      && (g.Finished? ==> IsSuccessHandler(commands[g.at]))
    decreases |commands| - index
  {
    var k := index + 1;
    if 0 <= k < |commands| {
      var s := commands[k];
      SkipSteps(s, p, r, jb);
      if StepAction(s, p, r, jb).Skip? {
        var r2 := Skipped(r);
        AdvanceStops(commands, k, p, r2, jb);
        var g := Advance(commands, k, p, r2, jb);
        assert Advance(commands, index, p, r, jb) == g;
        SkipChainStep(index, g.at, r);
      }
    }
  }

  /** The result a run of skipped steps hands to the step after them: code 0, empty reason. */
  function SkipChain(index: int, at: int, r: NetworkResult): NetworkResult
  {
    if at == index + 1 then r else Skipped(r)
  }

  lemma SkipChainStep(index: int, at: int, r: NetworkResult)
    requires at > index + 1
    ensures SkipChain(index + 1, at, Skipped(r)) == SkipChain(index, at, r)
  {
  }

  /** Without skips the trampoline runs exactly the step after the cursor. */
  lemma AdvanceNoSkip(commands: seq<Step>, index: int, p: NetworkParams, r: NetworkResult, jb: bool)
    requires 0 <= index + 1 < |commands|
    requires !StepAction(commands[index + 1], p, r, jb).Skip?
    ensures var g := Advance(commands, index, p, r, jb);
      && g.at == index + 1
      && (StepAction(commands[index + 1], p, r, jb).Command? ==>
            g == Issued(index + 1, StepAction(commands[index + 1], p, r, jb).params,
                        StepAction(commands[index + 1], p, r, jb).command))
      && (StepAction(commands[index + 1], p, r, jb).Finish? ==>
            g == Finished(index + 1, StepAction(commands[index + 1], p, r, jb).post))
  {
  }

  /** A skipping step hands the trampoline on to the step after it, with the result it set. */
  lemma AdvanceSkip(commands: seq<Step>, index: int, p: NetworkParams, r: NetworkResult, jb: bool)
    requires 0 <= index + 1 < |commands|
    requires StepAction(commands[index + 1], p, r, jb).Skip?
    ensures Advance(commands, index, p, r, jb)
            == Advance(commands, index + 1, p, StepAction(commands[index + 1], p, r, jb).result, jb)
  {
  }

  /** Once the cursor is at or past the last step, the trampoline only deletes the chain. */
  lemma AdvancePastEnd(commands: seq<Step>, index: int, p: NetworkParams, r: NetworkResult, jb: bool)
    requires index + 1 >= |commands|
    ensures Advance(commands, index, p, r, jb) == Exhausted(index + 1)
  {
  }

  /** Each rollback chain starts by stopping the access point, with the parameters it was given. */
  lemma RollbackStarts(h: FailHandler, p: NetworkParams, r: NetworkResult, jb: bool)
    ensures Advance(RollbackTable(h), -1, p, r, jb) == Issued(0, p, "softap stopap")
  {
    var t := RollbackTable(h);
    assert t[0] == StopSoftAP;
    assert Fetch(t, 0) == Some(StopSoftAP);
  }

  /**
   * In the SDK >= 16 dialect, the reply to the firmware reload that opens Wi-Fi
   * tethering moves the chain past the skipped driver start straight to
   * setAccessPoint, which sees code 0 and an empty reason.
   */
  lemma WifiEnableSkipsDriverStart(p: NetworkParams, r: NetworkResult)
    ensures Advance(WifiEnableChain, 0, p, r, true) ==
      Issued(2, p, "softap set " + p.ifname + " \"" + p.ssid + "\" " + p.security + " \"" + p.key + "\"")
  {
    var t := WifiEnableChain;
    assert t[1] == StartAccessPointDriver && t[2] == SetAccessPoint;
    assert Fetch(t, 1) == Some(StartAccessPointDriver);
    assert Fetch(t, 2) == Some(SetAccessPoint);
    var r2 := Skipped(r);
    assert StepAction(StartAccessPointDriver, p, r, true) == Skip(r2);
    assert Advance(t, 0, p, r, true) == Advance(t, 1, p, r2, true);
  }

  /** In the older dialect the same reply starts the access-point driver instead. */
  lemma WifiEnableStartsDriverBeforeJellyBean(p: NetworkParams, r: NetworkResult)
    ensures Advance(WifiEnableChain, 0, p, r, false) == Issued(1, p, "softap start " + p.ifname)
  {
    var t := WifiEnableChain;
    assert t[1] == StartAccessPointDriver;
    assert Fetch(t, 1) == Some(StartAccessPointDriver);
  }

  // ---------------------------------------------------------------------------
  // whole runs
  // ---------------------------------------------------------------------------

  /** One call of the trampoline: from a cursor, the chain's parameters and a reply. */
  type Stepper<!P, !R> = (int, P, R) -> Progress<P, R>

  /** The trampoline of the table `commands` in the dialect jb, as a value. */
  function Trampoline(commands: seq<Step>, jb: bool): Stepper<NetworkParams, NetworkResult>
  {
    (i: int, q: NetworkParams, r: NetworkResult) => Advance(commands, i, q, r, jb)
  }

  /**
   * A chain fed only successful replies: rs[0] is the result the chain is started
   * with, and each later element is the reply to the command issued before it.
   * After every issued command the cursor and the parameters are the issuing
   * step's.  The run stops at the first call that does not issue.
   */
  function Fold<P, R>(adv: Stepper<P, R>, index: int, p: P, rs: seq<R>): (tr: seq<Progress<P, R>>)
    ensures |tr| <= |rs|
    ensures rs != [] ==> |tr| > 0
    decreases |rs|
  {
    if |rs| == 0 then []
    else
      var g := adv(index, p, rs[0]);
      if g.Issued? then [g] + Fold(adv, g.at, g.params, rs[1..]) else [g]
  }

  /** A run of the trampoline of a table. */
  function Trace(commands: seq<Step>, index: int, p: NetworkParams, rs: seq<NetworkResult>, jb: bool): seq<Progress<NetworkParams, NetworkResult>>
  {
    Fold(Trampoline(commands, jb), index, p, rs)
  }

  /** The reference: the positions from `from` on whose step does not skip, in table order. */
  function NonSkipping(commands: seq<Step>, from: nat, jb: bool): (ns: seq<int>)
    ensures forall i :: 0 <= i < |ns| ==> from <= ns[i] < |commands|
    decreases |commands| - from
  {
    if from >= |commands| then []
    else if jb && (commands[from] == StartAccessPointDriver || commands[from] == StopAccessPointDriver) then
      NonSkipping(commands, from + 1, jb)
    else [from] + NonSkipping(commands, from + 1, jb)
  }

  function Min(a: int, b: int): int { if a < b then a else b }

  /**
   * In a table that ends in its one success handler, a call of the trampoline
   * from a cursor before that handler stops at the first non-skipping position
   * after the cursor, and finishes exactly when that is the handler.
   */
  /** Whether the step at position k is one the trampoline passes over. */
  lemma NonSkippingAt(commands: seq<Step>, k: nat, jb: bool)
    requires k < |commands|
    ensures jb && (commands[k] == StartAccessPointDriver || commands[k] == StopAccessPointDriver) ==>
              NonSkipping(commands, k, jb) == NonSkipping(commands, k + 1, jb)
    ensures !(jb && (commands[k] == StartAccessPointDriver || commands[k] == StopAccessPointDriver)) ==>
              NonSkipping(commands, k, jb) == [k] + NonSkipping(commands, k + 1, jb)
  {
  }

  lemma {:induction false} AdvanceNext(t: seq<Step>, index: int, p: NetworkParams, r: NetworkResult, jb: bool)
    requires EndsInOneSuccessHandler(t)
    requires -1 <= index < |t| - 1
    ensures var g := Advance(t, index, p, r, jb);
      && !g.Exhausted?
      && NonSkipping(t, index + 1, jb) == [g.at] + NonSkipping(t, g.at + 1, jb)
      && (g.Finished? <==> g.at == |t| - 1)
    decreases |t| - index, 1
  {
    var s := t[index + 1];
    if jb && (s == StartAccessPointDriver || s == StopAccessPointDriver) {
      AdvanceNextSkip(t, index, p, r, jb);
    } else {
      NonSkippingAt(t, index + 1, jb);
      SkipSteps(s, p, r, jb);
      AdvanceNoSkip(t, index, p, r, jb);
    }
  }

  /** AdvanceNext past a skipping step: the step is not the success handler, and the call goes on from it. */
  lemma {:induction false} AdvanceNextSkip(t: seq<Step>, index: int, p: NetworkParams, r: NetworkResult, jb: bool)
    requires EndsInOneSuccessHandler(t)
    requires -1 <= index < |t| - 1
    requires jb && (t[index + 1] == StartAccessPointDriver || t[index + 1] == StopAccessPointDriver)
    ensures var g := Advance(t, index, p, r, jb);
      && !g.Exhausted?
      && NonSkipping(t, index + 1, jb) == [g.at] + NonSkipping(t, g.at + 1, jb)
      && (g.Finished? <==> g.at == |t| - 1)
    decreases |t| - index, 0
  {
    var k := index + 1;
    assert k < |t| - 1 by {
      assert IsSuccessHandler(t[|t| - 1]);
    }
    NonSkippingAt(t, k, jb);
    SkipSteps(t[k], p, r, jb);
    AdvanceSkip(t, index, p, r, jb);
    AdvanceNext(t, k, p, StepAction(t[k], p, r, jb).result, jb);
  }

  /** Where a call of the trampoline stopped, and how. */
  datatype Stop = CommandAt(at: int) | PostAt(at: int) | EndAt(at: int)

  function StopOf<P, R>(g: Progress<P, R>): Stop
  {
    match g
    case Issued(at, _, _) => CommandAt(at)
    case Finished(at, _) => PostAt(at)
    case Exhausted(at) => EndAt(at)
  }

  /** The stops of a run, in order. */
  function Stops<P, R>(tr: seq<Progress<P, R>>): (ss: seq<Stop>)
    ensures |ss| == |tr|
  {
    if |tr| == 0 then [] else [StopOf(tr[0])] + Stops(tr[1..])
  }

  /**
   * The reference run: given n replies, a chain stops once per reply at the
   * positions ns in order, and issues a command at each until it reaches
   * `last`, where it posts and ends.
   */
  function Expected(ns: seq<int>, n: nat, last: int): seq<Stop>
  {
    if n == 0 || ns == [] then []
    else if ns[0] == last then [PostAt(last)]
    else [CommandAt(ns[0])] + Expected(ns[1..], n - 1, last)
  }

  /** Positions that end at `last` and are below it before that. */
  predicate EndsAt(ns: seq<int>, last: int)
  {
    ns != [] && ns[|ns| - 1] == last && forall i :: 0 <= i < |ns| - 1 ==> ns[i] < last
  }

  /**
   * When the reference positions end at `last` and reach it only there, the
   * reference run stops min(n, |ns|) times: a command at each position before
   * `last`, a post at `last`.
   */
  lemma {:induction false} ExpectedShape(ns: seq<int>, n: nat, last: int)
    requires EndsAt(ns, last)
    ensures |Expected(ns, n, last)| == Min(n, |ns|)
    ensures forall i :: 0 <= i < |Expected(ns, n, last)| ==>
              Expected(ns, n, last)[i] == if ns[i] == last then PostAt(last) else CommandAt(ns[i])
    decreases n
  {
    if n > 0 && ns[0] != last {
      EndsAtTail(ns, last);
      ExpectedShape(ns[1..], n - 1, last);
      ShapeCons(Expected(ns, n, last), Expected(ns[1..], n - 1, last), ns, last);
    }
  }

  /** Dropping a first position other than `last` keeps the positions ending at `last`. */
  lemma EndsAtTail(ns: seq<int>, last: int)
    requires EndsAt(ns, last) && ns[0] != last
    ensures EndsAt(ns[1..], last)
  {
    assert |ns| > 1;
    assert forall i :: 0 <= i < |ns[1..]| ==> ns[1..][i] == ns[i + 1];
  }

  /** The reference run's shape, one command in front. */
  lemma ShapeCons(e: seq<Stop>, e': seq<Stop>, ns: seq<int>, last: int)
    requires ns != [] && ns[0] != last && e == [CommandAt(ns[0])] + e'
    requires |e'| <= |ns| - 1
    requires forall i :: 0 <= i < |e'| ==> e'[i] == if ns[1..][i] == last then PostAt(last) else CommandAt(ns[1..][i])
    ensures forall i :: 0 <= i < |e| ==> e[i] == if ns[i] == last then PostAt(last) else CommandAt(ns[i])
  {
    forall i | 0 <= i < |e|
      ensures e[i] == if ns[i] == last then PostAt(last) else CommandAt(ns[i])
    {
      if i > 0 {
        assert e[i] == e'[i - 1];
        assert ns[1..][i - 1] == ns[i];
      }
    }
  }

  /**
   * In a table that ends in its one success handler, the non-skipping
   * positions from any position up to the handler end at the handler and
   * reach it only there.
   */
  lemma {:induction false} NonSkippingEnds(t: seq<Step>, from: nat, jb: bool)
    requires EndsInOneSuccessHandler(t)
    requires from <= |t| - 1
    ensures EndsAt(NonSkipping(t, from, jb), |t| - 1)
    decreases |t| - from
  {
    NonSkippingAt(t, from, jb);
    if from == |t| - 1 {
      assert NonSkipping(t, from + 1, jb) == [];
    } else {
      NonSkippingEnds(t, from + 1, jb);
      if NonSkipping(t, from, jb) != NonSkipping(t, from + 1, jb) {
        EndsAtCons(from, NonSkipping(t, from + 1, jb), |t| - 1);
      }
    }
  }

  /** A position below `last` in front of positions that end at `last`. */
  lemma EndsAtCons(k: int, ns: seq<int>, last: int)
    requires EndsAt(ns, last) && k < last
    ensures EndsAt([k] + ns, last)
  {
    var ns' := [k] + ns;
    assert ns'[|ns'| - 1] == ns[|ns| - 1];
    assert forall i :: 1 <= i < |ns'| ==> ns'[i] == ns[i - 1];
  }

  /** An issuing stop in front of a run that matches the reference. */
  lemma StopsCons<P, R>(tr: seq<Progress<P, R>>, g: Progress<P, R>, tail: seq<Progress<P, R>>, ns: seq<int>, ns': seq<int>, n: nat, n': nat, last: int)
    requires g.Issued? && g.at != last && n == n' + 1
    requires tr == [g] + tail && ns == [g.at] + ns'
    requires Stops(tail) == Expected(ns', n', last)
    ensures Stops(tr) == Expected(ns, n, last)
  {
    assert tr[1..] == tail;
    assert ns[1..] == ns';
  }

  /** A run that posts at its first stop, at `last`. */
  lemma StopsLast<P, R>(tr: seq<Progress<P, R>>, g: Progress<P, R>, ns: seq<int>, n: nat, last: int)
    requires g.Finished? && g.at == last && n > 0
    requires tr == [g] && ns != [] && ns[0] == last
    ensures Stops(tr) == Expected(ns, n, last)
  {
    assert tr[1..] == [];
  }

  /** A run with no reply has not stopped. */
  lemma StopsNone<P, R>(tr: seq<Progress<P, R>>, ns: seq<int>, last: int)
    requires tr == []
    ensures Stops(tr) == Expected(ns, 0, last)
  {
  }

  /**
   * What AdvanceNext says of one call g from cursor i, with the reference
   * positions from k on given by ref(k): the call stops at the first of the
   * positions after the cursor, and finishes exactly when that is `last`.
   */
  predicate NextStop<P, R>(g: Progress<P, R>, i: int, ref: int -> seq<int>, last: int)
  {
    && i < g.at <= last
    && !g.Exhausted?
    && ref(i + 1) == [g.at] + ref(g.at + 1)
    && (g.Finished? <==> g.at == last)
  }

  /** NextStop for every call from a cursor before `last`. */
  ghost predicate StopsAtNext<P(!new), R(!new)>(adv: Stepper<P, R>, ref: int -> seq<int>, last: int)
  {
    forall i: int, q: P, r: R :: -1 <= i < last ==> NextStop(adv(i, q, r), i, ref, last)
  }

  /** The non-skipping positions of a table from k on, as a value. */
  function Reference(t: seq<Step>, jb: bool): int -> seq<int>
  {
    (k: int) => if 0 <= k then NonSkipping(t, k, jb) else []
  }

  /** AdvanceNext in terms of the reference value. */
  lemma AdvanceNextStop(t: seq<Step>, i: int, q: NetworkParams, r: NetworkResult, jb: bool)
    requires EndsInOneSuccessHandler(t)
    requires -1 <= i < |t| - 1
    ensures NextStop(Advance(t, i, q, r, jb), i, Reference(t, jb), |t| - 1)
  {
    AdvanceNext(t, i, q, r, jb);
    var g := Advance(t, i, q, r, jb);
    assert Reference(t, jb)(i + 1) == NonSkipping(t, i + 1, jb);
    assert Reference(t, jb)(g.at + 1) == NonSkipping(t, g.at + 1, jb);
  }

  lemma TrampolineStopsAtNext(t: seq<Step>, jb: bool)
    requires EndsInOneSuccessHandler(t)
    ensures StopsAtNext(Trampoline(t, jb), Reference(t, jb), |t| - 1)
  {
    forall i: int, q: NetworkParams, r: NetworkResult | -1 <= i < |t| - 1
      ensures NextStop(Trampoline(t, jb)(i, q, r), i, Reference(t, jb), |t| - 1)
    {
      AdvanceNextStop(t, i, q, r, jb);
      assert Trampoline(t, jb)(i, q, r) == Advance(t, i, q, r, jb);
    }
  }

  /** A fold of a trampoline that always stops at the next reference position. */
  lemma {:induction false} FoldPositions<P(!new), R(!new)>(adv: Stepper<P, R>, ref: int -> seq<int>, last: int, index: int, p: P, rs: seq<R>)
    requires StopsAtNext(adv, ref, last)
    requires -1 <= index < last
    ensures Stops(Fold(adv, index, p, rs)) == Expected(ref(index + 1), |rs|, last)
    decreases |rs|
  {
    if rs == [] {
      StopsNone(Fold(adv, index, p, rs), ref(index + 1), last);
    } else if Fold(adv, index, p, rs)[0].Issued? {
      var g := Fold(adv, index, p, rs)[0];
      FoldHeadStops(adv, ref, last, index, p, rs);
      FoldPositions(adv, ref, last, g.at, g.params, rs[1..]);
      FoldStopsCons(adv, index, p, rs, ref(index + 1), ref(g.at + 1), last);
    } else {
      FoldHeadStops(adv, ref, last, index, p, rs);
      FoldStopsLast(adv, index, p, rs, ref(index + 1), last);
    }
  }

  /** A fold whose first call issues at a position in front of the reference. */
  lemma FoldStopsCons<P, R>(adv: Stepper<P, R>, index: int, p: P, rs: seq<R>, ns: seq<int>, ns': seq<int>, last: int)
    requires rs != [] && Fold(adv, index, p, rs)[0].Issued?
    requires Fold(adv, index, p, rs)[0].at != last && ns == [Fold(adv, index, p, rs)[0].at] + ns'
    requires Stops(Fold(adv, Fold(adv, index, p, rs)[0].at, Fold(adv, index, p, rs)[0].params, rs[1..]))
             == Expected(ns', |rs| - 1, last)
    ensures Stops(Fold(adv, index, p, rs)) == Expected(ns, |rs|, last)
  {
    var g := Fold(adv, index, p, rs)[0];
    FoldCons(adv, index, p, rs);
    StopsCons(Fold(adv, index, p, rs), g, Fold(adv, g.at, g.params, rs[1..]), ns, ns', |rs|, |rs| - 1, last);
  }

  /** A fold whose first call posts at the reference's last position. */
  lemma FoldStopsLast<P, R>(adv: Stepper<P, R>, index: int, p: P, rs: seq<R>, ns: seq<int>, last: int)
    requires rs != [] && Fold(adv, index, p, rs)[0].Finished? && Fold(adv, index, p, rs)[0].at == last
    requires ns != [] && ns[0] == last
    ensures Stops(Fold(adv, index, p, rs)) == Expected(ns, |rs|, last)
  {
    FoldLast(adv, index, p, rs);
    StopsLast(Fold(adv, index, p, rs), Fold(adv, index, p, rs)[0], ns, |rs|, last);
  }

  /** A fold whose first call issued continues with the fold from that call's cursor and parameters. */
  lemma FoldCons<P, R>(adv: Stepper<P, R>, index: int, p: P, rs: seq<R>)
    requires rs != [] && Fold(adv, index, p, rs)[0].Issued?
    ensures Fold(adv, index, p, rs)
            == [Fold(adv, index, p, rs)[0]] + Fold(adv, Fold(adv, index, p, rs)[0].at, Fold(adv, index, p, rs)[0].params, rs[1..])
  {
  }

  /** A fold whose first call does not issue stops there. */
  lemma FoldLast<P, R>(adv: Stepper<P, R>, index: int, p: P, rs: seq<R>)
    requires rs != [] && !Fold(adv, index, p, rs)[0].Issued?
    ensures Fold(adv, index, p, rs) == [Fold(adv, index, p, rs)[0]]
  {
  }

  /** StopsAtNext at the first call of a fold. */
  lemma FoldHeadStops<P(!new), R(!new)>(adv: Stepper<P, R>, ref: int -> seq<int>, last: int, index: int, p: P, rs: seq<R>)
    requires StopsAtNext(adv, ref, last)
    requires -1 <= index < last && rs != []
    ensures NextStop(Fold(adv, index, p, rs)[0], index, ref, last)
  {
    assert Fold(adv, index, p, rs)[0] == adv(index, p, rs[0]);
  }

  /**
   * Whole-run shape.  Fed only successful replies, a chain over a table that ends
   * in its one success handler stops exactly as the reference run over the
   * table's non-skipping positions does.
   */
  lemma TracePositions(t: seq<Step>, index: int, p: NetworkParams, rs: seq<NetworkResult>, jb: bool)
    requires EndsInOneSuccessHandler(t)
    requires -1 <= index < |t| - 1
    ensures Stops(Trace(t, index, p, rs, jb)) == Expected(NonSkipping(t, index + 1, jb), |rs|, |t| - 1)
  {
    TrampolineStopsAtNext(t, jb);
    FoldPositionsOf(Trampoline(t, jb), t, jb, index, p, rs);
    assert Trace(t, index, p, rs, jb) == Fold(Trampoline(t, jb), index, p, rs);
  }

  /** FoldPositions with the reference of a table. */
  lemma FoldPositionsOf<P(!new), R(!new)>(adv: Stepper<P, R>, t: seq<Step>, jb: bool, index: int, p: P, rs: seq<R>)
    requires StopsAtNext(adv, Reference(t, jb), |t| - 1)
    requires -1 <= index < |t| - 1
    ensures Stops(Fold(adv, index, p, rs)) == Expected(NonSkipping(t, index + 1, jb), |rs|, |t| - 1)
  {
    FoldPositions(adv, Reference(t, jb), |t| - 1, index, p, rs);
    assert Reference(t, jb)(index + 1) == NonSkipping(t, index + 1, jb);
  }

  /** The i-th stop of a run is where its i-th call stopped. */
  lemma {:induction false} StopsEach<P, R>(tr: seq<Progress<P, R>>, i: nat)
    requires i < |tr|
    ensures Stops(tr)[i] == StopOf(tr[i])
    decreases i
  {
    if i > 0 {
      assert tr[1..][i - 1] == tr[i];
      StopsEach(tr[1..], i - 1);
    }
  }

  /**
   * A run that matches the reference run over positions ending at `last`
   * stops min(n, |ns|) times, the i-th time at ns[i]: with a post there if it
   * is `last`, with a command otherwise.
   */
  lemma RunMatchesReference<P, R>(tr: seq<Progress<P, R>>, ns: seq<int>, n: nat, last: int)
    requires Stops(tr) == Expected(ns, n, last)
    requires EndsAt(ns, last)
    ensures |tr| == Min(n, |ns|)
    ensures forall i :: 0 <= i < |tr| ==> StopOf(tr[i]) == if ns[i] == last then PostAt(ns[i]) else CommandAt(ns[i])
  {
    ExpectedShape(ns, n, last);
    forall i | 0 <= i < |tr|
      ensures StopOf(tr[i]) == if ns[i] == last then PostAt(ns[i]) else CommandAt(ns[i])
    {
      StopsEach(tr, i);
      assert Stops(tr)[i] == Expected(ns, n, last)[i];
    }
  }

  /**
   * A whole run of a chain started on a table that ends in its one success
   * handler and fed only successful replies: it makes one call per reply
   * until the non-skipping positions of the table run out; the i-th call
   * stops at the i-th of them, and posts there if that is the success handler
   * and issues a command otherwise.
   */
  lemma WholeRun(t: seq<Step>, p: NetworkParams, rs: seq<NetworkResult>, jb: bool)
    requires EndsInOneSuccessHandler(t)
    ensures |Trace(t, -1, p, rs, jb)| == Min(|rs|, |NonSkipping(t, 0, jb)|)
    ensures forall i :: 0 <= i < |Trace(t, -1, p, rs, jb)| ==>
              StopOf(Trace(t, -1, p, rs, jb)[i])
              == if NonSkipping(t, 0, jb)[i] == |t| - 1 then PostAt(NonSkipping(t, 0, jb)[i])
                 else CommandAt(NonSkipping(t, 0, jb)[i])
  {
    TracePositions(t, -1, p, rs, jb);
    NonSkippingEnds(t, 0, jb);
    RunMatchesReference(Trace(t, -1, p, rs, jb), NonSkipping(t, 0, jb), |rs|, |t| - 1);
  }

  /** The cursor a run had before its i-th call of the trampoline. */
  function CursorBefore<P, R>(tr: seq<Progress<P, R>>, index: int, i: nat): int
    requires i <= |tr|
  {
    if i == 0 then index else tr[i - 1].at
  }

  /** The chain's parameters before the i-th call: the last issuing step's. */
  function ParamsBefore<P, R>(tr: seq<Progress<P, R>>, p: P, i: nat): P
    requires i <= |tr|
  {
    if i == 0 || !tr[i - 1].Issued? then p else tr[i - 1].params
  }

  /** Every call of a fold but the last issued a command. */
  lemma {:induction false} FoldIssues<P, R>(adv: Stepper<P, R>, index: int, p: P, rs: seq<R>)
    ensures forall i :: 0 <= i < |Fold(adv, index, p, rs)| - 1 ==> Fold(adv, index, p, rs)[i].Issued?
    decreases |rs|
  {
    if rs != [] {
      var g := Fold(adv, index, p, rs)[0];
      if g.Issued? {
        var tail := Fold(adv, g.at, g.params, rs[1..]);
        FoldIssues(adv, g.at, g.params, rs[1..]);
        var tr := Fold(adv, index, p, rs);
        assert tr == [g] + tail;
        forall i | 1 <= i < |tr| - 1
          ensures tr[i].Issued?
        {
          assert tr[i] == tail[i - 1];
        }
      }
    }
  }

  /** Every call of the trampoline moves the cursor forward. */
  ghost predicate MovesForward<P(!new), R(!new)>(adv: Stepper<P, R>)
  {
    forall c: int, q: P, r: R :: c < adv(c, q, r).at
  }

  /** Every call of a fold of such a trampoline stops after the starting cursor. */
  lemma {:induction false} FoldForward<P(!new), R(!new)>(adv: Stepper<P, R>, index: int, p: P, rs: seq<R>)
    requires MovesForward(adv)
    ensures forall i :: 0 <= i < |Fold(adv, index, p, rs)| ==> index < Fold(adv, index, p, rs)[i].at
    decreases |rs|
  {
    if rs != [] {
      var g := Fold(adv, index, p, rs)[0];
      if g.Issued? {
        var tail := Fold(adv, g.at, g.params, rs[1..]);
        FoldForward(adv, g.at, g.params, rs[1..]);
        var tr := Fold(adv, index, p, rs);
        assert tr == [g] + tail;
        forall i | 1 <= i < |tr|
          ensures index < tr[i].at
        {
          assert tr[i] == tail[i - 1];
        }
      }
    }
  }

  /**
   * A fold, call by call: its i-th element is the trampoline's answer from the
   * cursor and the parameters the previous call left, on the i-th reply.
   */
  lemma {:induction false} FoldEach<P, R>(adv: Stepper<P, R>, index: int, p: P, rs: seq<R>)
    ensures forall i :: 0 <= i < |Fold(adv, index, p, rs)| ==>
              Fold(adv, index, p, rs)[i]
              == adv(CursorBefore(Fold(adv, index, p, rs), index, i), ParamsBefore(Fold(adv, index, p, rs), p, i), rs[i])
    decreases |rs|
  {
    var tr := Fold(adv, index, p, rs);
    if rs != [] {
      var g := Fold(adv, index, p, rs)[0];
      if g.Issued? {
        var tail := Fold(adv, g.at, g.params, rs[1..]);
        FoldEach(adv, g.at, g.params, rs[1..]);
        FoldIssues(adv, g.at, g.params, rs[1..]);
        assert tr == [g] + tail;
        forall i | 1 <= i < |tr|
          ensures tr[i] == adv(CursorBefore(tr, index, i), ParamsBefore(tr, p, i), rs[i])
        {
          EachShift(adv, tr, g, tail, index, p, rs, i);
        }
      }
    }
  }

  /** The i-th call of a run is the (i-1)-th call of the run after its first command. */
  lemma EachShift<P, R>(adv: Stepper<P, R>, tr: seq<Progress<P, R>>, g: Progress<P, R>, tail: seq<Progress<P, R>>,
                  index: int, p: P, rs: seq<R>, i: nat)
    requires g.Issued? && tr == [g] + tail && 1 <= i < |tr| && |tr| <= |rs|
    requires tail[i - 1] == adv(CursorBefore(tail, g.at, i - 1), ParamsBefore(tail, g.params, i - 1), rs[1..][i - 1])
    requires i >= 2 ==> tail[i - 2].Issued?
    ensures tr[i] == adv(CursorBefore(tr, index, i), ParamsBefore(tr, p, i), rs[i])
  {
    assert tr[i] == tail[i - 1];
    assert tr[i - 1] == if i == 1 then g else tail[i - 2];
    assert rs[i] == rs[1..][i - 1];
    assert CursorBefore(tr, index, i) == CursorBefore(tail, g.at, i - 1);
    assert ParamsBefore(tr, p, i) == ParamsBefore(tail, g.params, i - 1);
  }

  /**
   * A call that issued a command issued the one its step formats: the step at
   * the position it stopped at, from the parameters q the previous step left
   * and the reply r to the previous command, which runs of skipped steps
   * replace by code 0 and an empty reason; and it leaves that step's parameters.
   */
  predicate IssuedAsFormatted(t: seq<Step>, g: Progress<NetworkParams, NetworkResult>, cursor: int, q: NetworkParams, r: NetworkResult, jb: bool)
  {
    g.Issued? ==>
      && 0 <= g.at < |t|
      && g.command == StepCommand(t[g.at], q, SkipChain(cursor, g.at, r), jb)
      && g.params == StepParams(t[g.at], q, SkipChain(cursor, g.at, r))
  }

  /** One call of the trampoline issues the command its step formats. */
  lemma AdvanceFormats(t: seq<Step>, c: int, q: NetworkParams, r: NetworkResult, jb: bool)
    requires c >= -1
    ensures IssuedAsFormatted(t, Advance(t, c, q, r, jb), c, q, r, jb)
  {
    var g := Advance(t, c, q, r, jb);
    AdvanceStops(t, c, q, r, jb);
    if g.Issued? {
      SkipSteps(t[g.at], q, SkipChain(c, g.at, r), jb);
    }
  }

  /** Each command of a run is the one its step formats. */
  lemma TraceCommands(t: seq<Step>, index: int, p: NetworkParams, rs: seq<NetworkResult>, jb: bool)
    requires index >= -1
    ensures forall i :: 0 <= i < |Trace(t, index, p, rs, jb)| ==>
              IssuedAsFormatted(t, Trace(t, index, p, rs, jb)[i], CursorBefore(Trace(t, index, p, rs, jb), index, i),
                                ParamsBefore(Trace(t, index, p, rs, jb), p, i), rs[i], jb)
  {
    var tr := Trace(t, index, p, rs, jb);
    FoldEach(Trampoline(t, jb), index, p, rs);
    assert MovesForward(Trampoline(t, jb)) by {
      forall c: int, q: NetworkParams, r: NetworkResult
        ensures c < Trampoline(t, jb)(c, q, r).at
      {
        assert Trampoline(t, jb)(c, q, r) == Advance(t, c, q, r, jb);
      }
    }
    FoldForward(Trampoline(t, jb), index, p, rs);
    forall i | 0 <= i < |tr|
      ensures IssuedAsFormatted(t, tr[i], CursorBefore(tr, index, i), ParamsBefore(tr, p, i), rs[i], jb)
    {
      var c, q := CursorBefore(tr, index, i), ParamsBefore(tr, p, i);
      assert c >= -1;
      assert tr[i] == Advance(t, c, q, rs[i], jb);
      AdvanceFormats(t, c, q, rs[i], jb);
    }
  }

  /**
   * A tethering-enable chain whose k-th command fails has sent exactly k
   * commands by then, at the first k non-skipping positions of its table; the
   * failure is the reply to the last of them.
   */
  lemma TetheringEnableFailsAtK(t: seq<Step>, p: NetworkParams, rs: seq<NetworkResult>, jb: bool)
    requires t == UsbEnableChain || t == WifiEnableChain
    requires 0 < |rs| < |NonSkipping(t, 0, jb)|
    ensures |Trace(t, -1, p, rs, jb)| == |rs|
    ensures forall i :: 0 <= i < |rs| ==> StopOf(Trace(t, -1, p, rs, jb)[i]) == CommandAt(NonSkipping(t, 0, jb)[i])
  {
    CatalogShapes();
    NonSkippingEnds(t, 0, jb);
    WholeRun(t, p, rs, jb);
  }

}
