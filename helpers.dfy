/**
 * The small helpers of NetworkUtils.cpp: split (strtok loop), join (strcpy/strcat
 * loop) and getMaskLength (count of leading one bits of a netmask).
 */
module Helpers {
  import opened Wrappers
  import opened CText

  // ---------------------------------------------------------------------------
  // split
  // ---------------------------------------------------------------------------

  /** The tokens still to come once strtok has returned s. */
  function TokensAfter(s: Option<Token>, sep: string): seq<string>
  {
    match s
    case None => []
    case Some(t) => [t.text] + Tokens(t.rest, sep)
  }

  /** split: call strtok until it returns NULL, appending each token. */
  method Split(str: string, sep: string) returns (result: seq<string>)
    ensures result == Tokens(str, sep)
  {
    result := [];
    var s := Strtok(str, sep);
    while s.Some?
      invariant result + TokensAfter(s, sep) == Tokens(str, sep)
      decreases if s.Some? then |s.value.rest| + 1 else 0
    {
      result := result + [s.value.text];
      s := Strtok(s.value.rest, sep);
    }
  }

  // ---------------------------------------------------------------------------
  // join
  // ---------------------------------------------------------------------------

  /** The elements of xs with sep between each two neighbours; "" for no elements. */
  function JoinSpec(xs: seq<string>, sep: string): (j: string)
    ensures |xs| > 0 ==> |j| == SumLengths(xs) + (|xs| - 1) * |sep|
  {
    if |xs| == 0 then ""
    else if |xs| == 1 then xs[0]
    else xs[0] + sep + JoinSpec(xs[1..], sep)
  }

  lemma {:induction false} JoinSnoc(xs: seq<string>, x: string, sep: string)
    requires |xs| > 0
    ensures JoinSpec(xs + [x], sep) == JoinSpec(xs, sep) + sep + x
    decreases |xs|
  {
    if |xs| > 1 {
      assert (xs + [x])[1..] == xs[1..] + [x];
      JoinSnoc(xs[1..], x, sep);
    } else {
      assert (xs + [x])[1..] == [x];
    }
  }

  /**
   * join: copy the first element, then append sep and the next element for each
   * further one.  An empty parts leaves the caller's buffer as it was; both callers
   * pass an empty buffer or never an empty parts, so that case yields "".
   */
  method Join(parts: seq<string>, sep: string) returns (result: string)
    ensures result == JoinSpec(parts, sep)
  {
    result := "";
    if |parts| > 0 {
      result := parts[0];
      var i := 1;
      while i < |parts|
        invariant 1 <= i <= |parts|
        invariant result == JoinSpec(parts[..i], sep)
      {
        JoinSnoc(parts[..i], parts[i], sep);
        assert parts[..i + 1] == parts[..i] + [parts[i]];
        result := result + sep + parts[i];
        i := i + 1;
      }
      assert parts[..i] == parts;
    }
  }

  // ---------------------------------------------------------------------------
  // split and join are inverse when the separator is a real delimiter
  // ---------------------------------------------------------------------------

  lemma {:induction false} SkipLengthAllIn(e: string, b: string, delims: string)
    requires AllIn(e, delims)
    ensures SkipLength(e + b, delims) == |e| + SkipLength(b, delims)
    decreases |e|
  {
    if e != [] {
      assert (e + b)[1..] == e[1..] + b;
      SkipLengthAllIn(e[1..], b, delims);
    } else {
      assert e + b == b;
    }
  }

  lemma {:induction false} TokenLengthWord(x: string, t: string, delims: string)
    requires Avoids(x, delims)
    requires t != [] && t[0] in delims
    ensures TokenLength(x + t, delims) == |x|
    decreases |x|
  {
    if x != [] {
      assert (x + t)[0] == x[0] && (x + t)[1..] == x[1..] + t;
      assert Avoids(x[1..], delims) by {
        forall i | 0 <= i < |x[1..]| ensures x[1..][i] !in delims {
          assert x[1..][i] == x[i + 1];
        }
      }
      TokenLengthWord(x[1..], t, delims);
    } else {
      assert x + t == t;
    }
  }

  /** The token strtok returns when s holds a non-delimiter, spelt out. */
  lemma StrtokSome(s: string, delims: string)
    requires SkipLength(s, delims) < |s|
    ensures var t := s[SkipLength(s, delims)..]; var n := TokenLength(t, delims);
      Strtok(s, delims) == Some(Token(t[..n], if n == |t| then "" else t[n + 1..]))
  {
  }

  /** Leading delimiters never change what strtok returns next. */
  lemma StrtokAfterDelims(e: string, b: string, delims: string)
    requires AllIn(e, delims)
    ensures Strtok(e + b, delims) == Strtok(b, delims)
  {
    var s := e + b;
    SkipLengthAllIn(e, b, delims);
    var k := SkipLength(b, delims);
    if k == |b| {
      assert Strtok(b, delims) == None;
      assert s[..SkipLength(s, delims)] == s;
      assert Strtok(s, delims) == None;
    } else {
      assert s[SkipLength(s, delims)..] == b[k..];
      StrtokSome(b, delims);
      StrtokSome(s, delims);
    }
  }

  lemma TokensAfterDelims(e: string, b: string, delims: string)
    requires AllIn(e, delims)
    ensures Tokens(e + b, delims) == Tokens(b, delims)
  {
    StrtokAfterDelims(e, b, delims);
  }

  /** A word followed by a separator comes back as one token, resuming after one delimiter. */
  lemma StrtokWord(x: string, sep: string, b: string)
    requires |x| > 0 && Avoids(x, sep) && |sep| > 0
    ensures Strtok(x + sep + b, sep) == Some(Token(x, sep[1..] + b))
  {
    var s := x + sep + b;
    assert s == x + (sep + b);
    assert SkipLength(s, sep) == 0;
    TokenLengthWord(x, sep + b, sep);
    assert s[0..][..|x|] == x;
    assert s[|x| + 1..] == sep[1..] + b;
  }

  lemma StrtokLastWord(x: string, sep: string)
    requires |x| > 0 && Avoids(x, sep)
    ensures Strtok(x, sep) == Some(Token(x, ""))
  {
    assert SkipLength(x, sep) == 0;
    var n := TokenLength(x, sep);
    assert x[0..] == x && x[..n] == x;
  }

  /**
   * Splitting a join gives back the elements, provided the separator is not empty
   * and every element is non-empty and free of separator characters.
   */
  lemma {:induction false} SplitJoin(xs: seq<string>, sep: string)
    requires |sep| > 0
    requires forall i :: 0 <= i < |xs| ==> |xs[i]| > 0 && Avoids(xs[i], sep)
    ensures Tokens(JoinSpec(xs, sep), sep) == xs
    decreases |xs|
  {
    if |xs| == 0 {
      assert Strtok("", sep) == None;
    } else if |xs| == 1 {
      StrtokLastWord(xs[0], sep);
      assert Strtok("", sep) == None;
    } else {
      var rest := JoinSpec(xs[1..], sep);
      StrtokWord(xs[0], sep, rest);
      assert AllIn(sep[1..], sep) by {
        forall i | 0 <= i < |sep[1..]| ensures sep[1..][i] in sep {
          assert sep[1..][i] == sep[i + 1];
        }
      }
      TokensAfterDelims(sep[1..], rest, sep);
      SplitJoin(xs[1..], sep);
    }
  }

  /** With an empty delimiter set, strtok returns the whole string at once. */
  lemma TokensNoDelims(s: string)
    ensures Tokens(s, "") == if s == "" then [] else [s]
  {
    if s != "" {
      StrtokLastWord(s, "");
      assert Strtok("", "") == None;
    }
  }

  /** With an empty separator, join concatenates. */
  lemma {:induction false} JoinNoSep(xs: seq<string>)
    ensures |xs| > 0 ==> JoinSpec(xs, "") == xs[0] + JoinSpec(xs[1..], "")
    ensures |JoinSpec(xs, "")| == SumLengths(xs)
    decreases |xs|
  {
    if |xs| > 1 {
      JoinNoSep(xs[1..]);
    } else if |xs| == 1 {
      assert xs[1..] == [];
    }
  }

  function SumLengths(xs: seq<string>): nat
  {
    if xs == [] then 0 else |xs[0]| + SumLengths(xs[1..])
  }

  /**
   * With the empty separator the engine uses for interface lists, splitting a join
   * never yields more than one element, however many parts were joined.
   */
  lemma SplitJoinNoSep(xs: seq<string>)
    ensures |Tokens(JoinSpec(xs, ""), "")| <= 1
    ensures Tokens(JoinSpec(xs, ""), "") == [] <==> SumLengths(xs) == 0
  {
    JoinNoSep(xs);
    TokensNoDelims(JoinSpec(xs, ""));
  }

  // ---------------------------------------------------------------------------
  // getMaskLength
  // ---------------------------------------------------------------------------

  /** The bit getMaskLength tests: the most significant bit of a 32-bit word. */
  predicate TopBitSet(x: bv32)
  {
    x & 0x8000_0000 != 0
  }

  /** One left shift of a 32-bit word (the high bit falls off). */
  function Shift(x: bv32): bv32
  {
    x << 1
  }

  /** x shifted left by one bit n times, so bit 31 - n of x becomes the top bit. */
  function ShiftedLeft(x: bv32, n: nat): bv32
  {
    if n == 0 then x else Shift(ShiftedLeft(x, n - 1))
  }

  /** Bit 31 - i of mask is set: the top bit after i left shifts. */
  predicate LeadingBit(mask: bv32, i: nat)
  {
    TopBitSet(ShiftedLeft(mask, i))
  }

  /** n leading one bits: bits 31 down to 32 - n are set and, unless n is 32, bit 31 - n is clear. */
  predicate HasPrefixLength(mask: bv32, n: nat)
  {
    && n <= 32
    && (forall i :: 0 <= i < n ==> LeadingBit(mask, i))
    && (n < 32 ==> !LeadingBit(mask, n))
  }

  /** Shifting a times and then b times is shifting a + b times. */
  lemma {:induction false} ShiftedLeftAdd(x: bv32, a: nat, b: nat)
    ensures ShiftedLeft(x, a + b) == ShiftedLeft(ShiftedLeft(x, a), b)
    decreases b
  {
    if b > 0 {
      ShiftedLeftAdd(x, a, b - 1);
    }
  }

  function ByteShift(y: bv32): bv32
  {
    Shift(Shift(Shift(Shift(Shift(Shift(Shift(Shift(y))))))))
  }

  lemma ShiftedLeftByte(y: bv32)
    ensures ShiftedLeft(y, 8) == ByteShift(y)
  {
    assert ShiftedLeft(y, 1) == Shift(y);
    assert ShiftedLeft(y, 2) == Shift(Shift(y));
    assert ShiftedLeft(y, 3) == Shift(Shift(Shift(y)));
    assert ShiftedLeft(y, 4) == Shift(Shift(Shift(Shift(y))));
    assert ShiftedLeft(y, 5) == Shift(Shift(Shift(Shift(Shift(y)))));
    assert ShiftedLeft(y, 6) == Shift(Shift(Shift(Shift(Shift(Shift(y))))));
    assert ShiftedLeft(y, 7) == Shift(Shift(Shift(Shift(Shift(Shift(Shift(y)))))));
  }

  lemma ByteShiftBits(y: bv32)
    ensures ByteShift(y) == y << 8
  {
  }

  /** Thirty-two shifts clear every bit, so the loop of getMaskLength stops by then. */
  lemma ShiftedLeftAll(x: bv32)
    ensures ShiftedLeft(x, 32) == 0
  {
    ShiftedLeftAdd(x, 8, 8);
    ShiftedLeftAdd(x, 16, 8);
    ShiftedLeftAdd(x, 24, 8);
    ShiftedLeftByte(x);
    ShiftedLeftByte(ShiftedLeft(x, 8));
    ShiftedLeftByte(ShiftedLeft(x, 16));
    ShiftedLeftByte(ShiftedLeft(x, 24));
    ByteShiftBits(x);
    ByteShiftBits(x << 8);
    ByteShiftBits(x << 8 << 8);
    ByteShiftBits(x << 8 << 8 << 8);
    assert x << 8 << 8 << 8 << 8 == 0;
  }

  /**
   * getMaskLength: shift the mask left while its top bit is set, counting the
   * shifts.  ntohl is the identity here: the mask is taken in host order.  The
   * count never exceeds 32, so it is kept as a plain number.
   */
  method GetMaskLength(mask: bv32) returns (len: nat)
    ensures HasPrefixLength(mask, len)
  {
    var netmask := mask;
    len := 0;
    while TopBitSet(netmask)
      invariant len <= 32
      invariant netmask == ShiftedLeft(mask, len)
      invariant forall i :: 0 <= i < len ==> LeadingBit(mask, i)
      decreases 32 - len
    {
      if len == 32 {
        ShiftedLeftAll(mask);
        assert false;
      }
      len := len + 1;
      netmask := netmask << 1;
    }
  }

  /** A mask has only one leading-ones count. */
  lemma PrefixLengthUnique(mask: bv32, a: nat, b: nat)
    requires HasPrefixLength(mask, a) && HasPrefixLength(mask, b)
    ensures a == b
  {
  }
}
