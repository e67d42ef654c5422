/**
 * The netd response protocol: response codes bucketed by hundreds, the parse of
 * one reply line into a code and a reason, the wire form of an outgoing command
 * in both dialects, and the topics of unsolicited broadcasts.
 */
module Protocol {
  import opened Wrappers
  import opened CText
  import opened Helpers

  /** The C uint32_t the code is stored in. */
  type uint32 = x: int | 0 <= x < 0x1_0000_0000

  /** The conversion of an int to uint32_t: the value modulo 2^32. */
  function ToUint32(i: int): uint32
  {
    i % 0x1_0000_0000
  }

  const NetdCommandProceeding: uint32 := 100
  const NetdCommandOkay: uint32 := 200
  const NetdCommandFail: uint32 := 400
  const NetdCommandError: uint32 := 500
  const NetdCommandUnsolicited: uint32 := 600
  const NetdCommandInterfaceChange: uint32 := 600
  const NetdCommandBandwidthController: uint32 := 601

  /** The command sent only to keep a chain going. */
  const DummyCommand := "tether status"

  /** The separators of the engine: the empty C string "\0", "," and " ". */
  const InterfaceDelimit := ""
  const UsbConfigDelimit := ","
  const NetdMessageDelimit := " "

  /** netdResponseType: the code rounded down to its hundred. */
  function ResponseType(code: uint32): uint32
  {
    (code / 100) * 100
  }

  predicate IsBroadcastMessage(code: uint32)
  {
    ResponseType(code) == NetdCommandUnsolicited
  }

  predicate IsError(code: uint32)
  {
    var t := ResponseType(code);
    t != NetdCommandProceeding && t != NetdCommandOkay
  }

  predicate IsComplete(code: uint32)
  {
    ResponseType(code) != NetdCommandProceeding
  }

  predicate IsProceeding(code: uint32)
  {
    ResponseType(code) == NetdCommandProceeding
  }

  /** The classifiers depend only on the hundreds digit(s) of the code. */
  lemma ClassifiersByHundreds(code: uint32)
    ensures IsComplete(code) <==> code / 100 != 1
    ensures IsProceeding(code) <==> code / 100 == 1
    ensures IsProceeding(code) <==> !IsComplete(code)
    ensures IsError(code) <==> code / 100 != 1 && code / 100 != 2
    ensures IsBroadcastMessage(code) <==> code / 100 == 6
    ensures IsBroadcastMessage(code) ==> IsError(code) && IsComplete(code)
    ensures IsError(code) ==> IsComplete(code)
  {
    var h := code / 100;
    assert ResponseType(code) == h * 100;
    assert h * 100 == 100 <==> h == 1;
    assert h * 100 == 200 <==> h == 2;
    assert h * 100 == 600 <==> h == 6;
  }

  /** What one line from netd means to the engine. */
  datatype Event =
    | NoCode                                 // strtok found no token at all
    | Broadcast(code: uint32)                // a 6xx line; its reason is never extracted
    | Reply(code: uint32, reason: string)    // a reply to the outstanding command

  /** The text the third strtok of onNetdMessage returns, "" for NULL. */
  function ReasonAfterSequence(rest: string): string
  {
    match Strtok(rest, NetdMessageDelimit)
    case None => ""
    case Some(seqTok) =>
      match Strtok(seqTok.rest, "")
      case None => ""
      case Some(r) => r.text
  }

  /**
   * onNetdMessage's parse of a line: the first token is the code (atoi, stored
   * as uint32_t); only in the SDK >= 16 dialect and only for a non-broadcast code
   * is a sequence-number token skipped and the rest of the line taken as the
   * reason.  Otherwise the reason stays NULL, which the engine records as "".
   */
  function ParseReply(data: string, jb: bool): (e: Event)
    ensures e.NoCode? <==> AllIn(data, NetdMessageDelimit)
    ensures e.Broadcast? ==> IsBroadcastMessage(e.code)
    ensures e.Reply? ==> !IsBroadcastMessage(e.code)
    ensures e.Reply? && !jb ==> e.reason == ""
  {
    match Strtok(data, NetdMessageDelimit)
    case None => NoCode
    case Some(first) =>
      var code := ToUint32(Atoi(first.text));
      if IsBroadcastMessage(code) then Broadcast(code)
      else Reply(code, if jb then ReasonAfterSequence(first.rest) else "")
  }

  /** A reply line in the SDK >= 16 dialect: code, sequence number, reason. */
  function ReplyLine(code: uint32, sequence: string, reason: string): string
  {
    IntToString(code) + " " + sequence + " " + reason
  }

  /**
   * A line made of a code, a sequence token and any reason parses back to that
   * code and exactly that reason, spaces included.
   */
  lemma ParseReplyLine(code: uint32, sequence: string, reason: string)
    requires !IsBroadcastMessage(code)
    requires |sequence| > 0 && Avoids(sequence, NetdMessageDelimit)
    ensures ParseReply(ReplyLine(code, sequence, reason), true) == Reply(code, reason)
  {
    var digits := IntToString(code);
    var tail := sequence + " " + reason;
    DigitsAvoidSpace(code);
    assert ReplyLine(code, sequence, reason) == digits + " " + tail;
    StrtokWord(digits, " ", tail);
    assert Strtok(ReplyLine(code, sequence, reason), " ") == Some(Token(digits, tail));
    AtoiIntToString(code);
    assert ToUint32(Atoi(digits)) == code;
    ReasonAfterSequenceOf(sequence, reason);
  }

  lemma DigitsAvoidSpace(code: nat)
    ensures Avoids(IntToString(code), NetdMessageDelimit)
  {
    var d := IntToString(code);
    assert d == NatToString(code);
    forall i | 0 <= i < |d| ensures d[i] !in NetdMessageDelimit {
      assert IsDigit(d[i]);
    }
  }

  lemma ReasonAfterSequenceOf(sequence: string, reason: string)
    requires |sequence| > 0 && Avoids(sequence, NetdMessageDelimit)
    ensures ReasonAfterSequence(sequence + " " + reason) == reason
  {
    StrtokWord(sequence, " ", reason);
    assert " "[1..] + reason == reason;
    if reason != "" {
      StrtokLastWord(reason, "");
    } else {
      assert AllIn(reason, "");
    }
  }

  /** A NetdCommand: the bytes handed to the transport and the size field (length + NUL). */
  datatype NetdCommand = NetdCommand(data: string, size: nat)

  /** doCommand's formatting: "0 " (the sequence number) in front when SDK >= 16. */
  function Wire(command: string, jb: bool): (w: NetdCommand)
    ensures w.size == |w.data| + 1
    ensures |w.data| == |command| + (if jb then 2 else 0)
    ensures w.data[|w.data| - |command|..] == command
  {
    var data := if jb then "0 " + command else command;
    NetdCommand(data, |data| + 1)
  }

  /**
   * netd splits the leading sequence number off the wire text: the first token is
   * "0" and the text after it is the command, verbatim; the size counts the NUL.
   */
  lemma WireSequenceToken(command: string)
    ensures Strtok(Wire(command, true).data, NetdMessageDelimit) == Some(Token("0", command))
    ensures Wire(command, true).size == |command| + 3
    ensures Wire(command, false) == NetdCommand(command, |command| + 1)
  {
    StrtokWord("0", " ", command);
    assert "0" + " " + command == "0 " + command;
  }

  /** sendBroadcastMessage's code-to-topic switch; other codes post nothing. */
  function BroadcastTopic(code: uint32): (t: Option<string>)
    ensures t.Some? ==> IsBroadcastMessage(code)
  {
    if code == NetdCommandInterfaceChange then Some("netd-interface-change")
    else if code == NetdCommandBandwidthController then Some("netd-bandwidth-control")
    else None
  }

  /** Exactly the codes 600 and 601 are posted, each to its own topic. */
  lemma BroadcastTopics(code: uint32)
    ensures BroadcastTopic(code).Some? <==> code == 600 || code == 601
    ensures BroadcastTopic(600) != BroadcastTopic(601)
  {
  }
}
