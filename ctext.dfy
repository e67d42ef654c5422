/**
 * Models of the C library routines the engine builds its strings with:
 * strtok (with its saved position made explicit), atoi/atoll, the "%d"/"%ld"
 * conversions of sprintf, and nsString::Find used as a substring test.
 * Strings are sequences of characters; NUL terminators and buffer sizes are
 * not part of the model.
 */
module CText {
  import opened Wrappers

  /** True when no character of t is one of the delimiters. */
  predicate Avoids(t: string, delims: string)
  {
    forall i :: 0 <= i < |t| ==> t[i] !in delims
  }

  /** True when every character of t is one of the delimiters. */
  predicate AllIn(t: string, delims: string)
  {
    forall i :: 0 <= i < |t| ==> t[i] in delims
  }

  /** Length of the longest prefix of s made of delimiters (what strtok skips first). */
  function SkipLength(s: string, delims: string): (n: nat)
    ensures n <= |s|
    ensures AllIn(s[..n], delims)
    ensures n < |s| ==> s[n] !in delims
  {
    if s == [] || s[0] !in delims then 0 else 1 + SkipLength(s[1..], delims)
  }

  /** Length of the longest prefix of s that holds no delimiter (the token strtok returns). */
  function TokenLength(s: string, delims: string): (n: nat)
    ensures n <= |s|
    ensures Avoids(s[..n], delims)
    ensures n < |s| ==> s[n] in delims
  {
    if s == [] || s[0] in delims then 0 else 1 + TokenLength(s[1..], delims)
  }

  /** One token found by strtok, and the text strtok resumes from on its next call. */
  datatype Token = Token(text: string, rest: string)

  /**
   * strtok: skip the leading delimiters; if nothing is left there is no token (NULL).
   * Otherwise the token runs up to the next delimiter, which strtok overwrites with NUL,
   * so the next call resumes just after that one delimiter.  With an empty delimiter
   * set the token is the whole remaining string.
   */
  function Strtok(s: string, delims: string): (r: Option<Token>)
    ensures r.None? <==> AllIn(s, delims)
    ensures r.Some? ==> |r.value.text| > 0 && Avoids(r.value.text, delims)
    ensures r.Some? ==> |r.value.rest| < |s|
  {
    var k := SkipLength(s, delims);
    if k == |s| then
      assert s[..k] == s;
      None
    else
      var t := s[k..];
      var n := TokenLength(t, delims);
      Some(Token(t[..n], if n == |t| then "" else t[n + 1..]))
  }

  /** All tokens strtok returns when it is called until it yields NULL. */
  function Tokens(s: string, delims: string): (r: seq<string>)
    ensures forall i :: 0 <= i < |r| ==> |r[i]| > 0 && Avoids(r[i], delims)
    decreases |s|
  {
    match Strtok(s, delims)
    case None => []
    case Some(t) => [t.text] + Tokens(t.rest, delims)
  }

  /** isspace in the C locale. */
  predicate IsSpace(c: char)
  {
    c == ' ' || c == '\t' || c == '\n' || c == '\r' || c == '\U{B}' || c == '\U{C}'
  }

  predicate IsDigit(c: char)
  {
    '0' <= c <= '9'
  }

  function SpaceLength(s: string): (n: nat)
    ensures n <= |s|
    ensures n < |s| ==> !IsSpace(s[n])
  {
    if s == [] || !IsSpace(s[0]) then 0 else 1 + SpaceLength(s[1..])
  }

  function DigitLength(s: string): (n: nat)
    ensures n <= |s|
    ensures forall i :: 0 <= i < n ==> IsDigit(s[i])
    ensures n < |s| ==> !IsDigit(s[n])
  {
    if s == [] || !IsDigit(s[0]) then 0 else 1 + DigitLength(s[1..])
  }

  /** The value of a string of decimal digits, most significant first. */
  function DecimalValue(d: string): nat
    requires forall i :: 0 <= i < |d| ==> IsDigit(d[i])
  {
    if d == [] then 0 else 10 * DecimalValue(d[..|d| - 1]) + DigitOf(d[|d| - 1])
  }

  function DigitOf(c: char): (d: nat)
    requires IsDigit(c)
    ensures d < 10
  {
    c as int - '0' as int
  }

  /** The digits at the start of s, as a number. */
  function LeadingNumber(s: string): nat
  {
    DecimalValue(s[..DigitLength(s)])
  }

  /**
   * atoi / atoll / atof restricted to integers: leading white space, an optional
   * sign, then the longest run of decimal digits; anything else ends the number,
   * and a string without digits reads as 0.
   */
  function Atoi(s: string): (r: int)
    ensures SpaceLength(s) < |s| && IsDigit(s[SpaceLength(s)]) ==> r >= 0
  {
    var t := s[SpaceLength(s)..];
    if |t| > 0 && t[0] == '-' then -(LeadingNumber(t[1..]) as int)
    else if |t| > 0 && t[0] == '+' then LeadingNumber(t[1..])
    else LeadingNumber(t)
  }

  function DigitChar(d: nat): (c: char)
    requires d < 10
    ensures IsDigit(c) && DigitOf(c) == d
  {
    ('0' as int + d) as char
  }

  /** sprintf's "%u" of a non-negative number. */
  function NatToString(n: nat): (s: string)
    ensures |s| > 0
    ensures forall i :: 0 <= i < |s| ==> IsDigit(s[i])
    decreases n
  {
    if n < 10 then [DigitChar(n)] else NatToString(n / 10) + [DigitChar(n % 10)]
  }

  /** sprintf's "%d" / "%ld" / "%lld". */
  function IntToString(i: int): (s: string)
    ensures |s| > 0
  {
    if i < 0 then "-" + NatToString(-i) else NatToString(i)
  }

  lemma {:induction false} DecimalValueOfNatToString(n: nat)
    ensures DecimalValue(NatToString(n)) == n
    decreases n
  {
    var s := NatToString(n);
    if n >= 10 {
      DecimalValueOfNatToString(n / 10);
      assert s[..|s| - 1] == NatToString(n / 10);
    }
  }

  /** The digit run of a string of digits followed by a non-digit is exactly those digits. */
  lemma {:induction false} DigitLengthThen(d: string, t: string)
    requires forall i :: 0 <= i < |d| ==> IsDigit(d[i])
    requires t == "" || !IsDigit(t[0])
    ensures DigitLength(d + t) == |d|
    decreases |d|
  {
    if d == [] {
      assert d + t == t;
    } else {
      assert (d + t)[1..] == d[1..] + t;
      DigitLengthThen(d[1..], t);
    }
  }

  /** The leading number of a run of digits followed by a non-digit is the run's value. */
  lemma LeadingDigitsThen(d: string, t: string)
    requires forall i :: 0 <= i < |d| ==> IsDigit(d[i])
    requires t == "" || !IsDigit(t[0])
    ensures LeadingNumber(d + t) == DecimalValue(d)
  {
    DigitLengthThen(d, t);
    assert (d + t)[..|d|] == d;
  }

  /** A string that starts with a digit reads as its leading number. */
  lemma AtoiUnsigned(s: string)
    requires |s| > 0 && IsDigit(s[0])
    ensures Atoi(s) == LeadingNumber(s)
  {
    assert SpaceLength(s) == 0;
  }

  /** A string that starts with a minus sign reads as the negated leading number after it. */
  lemma AtoiMinus(s: string)
    requires |s| > 0 && s[0] == '-'
    ensures Atoi(s) == -(LeadingNumber(s[1..]) as int)
  {
    assert SpaceLength(s) == 0;
  }

  /** A run of digits ends where the next non-digit starts. */
  lemma AtoiDigitsThen(d: string, t: string)
    requires |d| > 0 && forall i :: 0 <= i < |d| ==> IsDigit(d[i])
    requires t == "" || !IsDigit(t[0])
    ensures Atoi(d + t) == DecimalValue(d)
  {
    LeadingDigitsThen(d, t);
    AtoiUnsigned(d + t);
  }

  /** The same after a minus sign. */
  lemma AtoiNegativeDigitsThen(d: string, t: string)
    requires |d| > 0 && forall i :: 0 <= i < |d| ==> IsDigit(d[i])
    requires t == "" || !IsDigit(t[0])
    ensures Atoi("-" + d + t) == -(DecimalValue(d) as int)
  {
    LeadingDigitsThen(d, t);
    SignDropped(d, t);
    AtoiMinus("-" + d + t);
  }

  lemma SignDropped(d: string, t: string)
    ensures |"-" + d + t| > 0 && ("-" + d + t)[0] == '-' && ("-" + d + t)[1..] == d + t
  {
  }

  /**
   * atoi reads a number printed with "%d" back as that number, whatever follows
   * it, as long as the next character is not a digit.
   */
  lemma AtoiPrinted(i: int, t: string)
    requires t == "" || !IsDigit(t[0])
    ensures Atoi(IntToString(i) + t) == i
  {
    var d := if i < 0 then NatToString(-i) else NatToString(i);
    DecimalValueOfNatToString(if i < 0 then -i else i);
    if i < 0 {
      AtoiNegativeDigitsThen(d, t);
    } else {
      AtoiDigitsThen(d, t);
    }
  }

  /** A number printed with "%d" reads back with atoi as the same number. */
  lemma AtoiIntToString(i: int)
    ensures Atoi(IntToString(i)) == i
  {
    AtoiPrinted(i, "");
    assert IntToString(i) + "" == IntToString(i);
  }

  /** nsString::Find(t) != kNotFound: t occurs somewhere in s. */
  predicate Contains(s: string, t: string)
    decreases |s|
  {
    t <= s || (s != [] && Contains(s[1..], t))
  }

  lemma {:induction false} ContainsAt(s: string, t: string, i: nat)
    requires i + |t| <= |s| && s[i..i + |t|] == t
    ensures Contains(s, t)
    decreases i
  {
    if i > 0 {
      assert s[1..][i - 1..i - 1 + |t|] == s[i..i + |t|];
      ContainsAt(s[1..], t, i - 1);
    }
  }

  lemma {:induction false} ContainsWitness(s: string, t: string) returns (i: nat)
    requires Contains(s, t)
    ensures i + |t| <= |s| && s[i..i + |t|] == t
    decreases |s|
  {
    if t <= s {
      i := 0;
    } else {
      var j := ContainsWitness(s[1..], t);
      i := j + 1;
      assert s[i..i + |t|] == s[1..][j..j + |t|];
    }
  }
}
