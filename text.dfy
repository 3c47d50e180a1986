/**
 * Bytes and text: the byte type, UTF-8 encoding of header text, decimal
 * numerals, and splitting text at a separator character.
 */
module Text {

  import Seqs
  import opened Wrappers

  newtype byte = x: int | 0 <= x < 256

  /** The UTF-8 encoding of one Unicode scalar value. */
  function EncodeChar(c: char): (r: seq<byte>)
    ensures 1 <= |r| <= 4
    ensures c as int < 0x80 ==> |r| == 1 && r[0] as int == c as int
    ensures c as int >= 0x80 ==> |r| > 1
  {
    var n := c as int;
    if n < 0x80 then [n as byte]
    else if n < 0x800 then [(0xC0 + n / 0x40) as byte, (0x80 + n % 0x40) as byte]
    else if n < 0x1_0000 then
      [(0xE0 + n / 0x1000) as byte, (0x80 + (n / 0x40) % 0x40) as byte, (0x80 + n % 0x40) as byte]
    else
      [(0xF0 + n / 0x4_0000) as byte, (0x80 + (n / 0x1000) % 0x40) as byte,
       (0x80 + (n / 0x40) % 0x40) as byte, (0x80 + n % 0x40) as byte]
  }

  /** The bytes a C++ std::string holds for a Python str handed over by the binding layer. */
  function Utf8(s: string): seq<byte>
  {
    if |s| == 0 then [] else Utf8(s[..|s| - 1]) + EncodeChar(s[|s| - 1])
  }

  lemma {:induction false} Utf8Append(a: string, b: string)
    ensures Utf8(a + b) == Utf8(a) + Utf8(b)
    decreases |b|
  {
    if |b| == 0 {
      assert a + b == a;
    } else {
      assert (a + b)[..|a + b| - 1] == a + b[..|b| - 1];
      Utf8Append(a, b[..|b| - 1]);
    }
  }

  predicate IsDigit(c: char) { '0' <= c <= '9' }

  function DigitChar(d: nat): char
    requires d < 10
  {
    ('0' as int + d) as char
  }

  /** The decimal numeral of n, as written by `operator<<` on an integer. */
  function NatToString(n: nat): (s: string)
    ensures |s| > 0
    ensures forall i | 0 <= i < |s| :: IsDigit(s[i])
  {
    if n < 10 then [DigitChar(n)] else NatToString(n / 10) + [DigitChar(n % 10)]
  }

  /** The value of a decimal numeral; absent for an empty or non-numeric token. */
  function ParseNat(s: string): Option<nat>
  {
    if |s| == 0 then None
    else if forall i | 0 <= i < |s| :: IsDigit(s[i]) then Some(DigitsValue(s))
    else None
  }

  function DigitsValue(s: string): nat
    requires forall i | 0 <= i < |s| :: IsDigit(s[i])
  {
    if |s| == 0 then 0
    else DigitsValue(s[..|s| - 1]) * 10 + DigitValue(s[|s| - 1])
  }

  function DigitValue(c: char): (d: nat)
    requires IsDigit(c)
    ensures d < 10
  {
    c as int - '0' as int
  }

  lemma {:induction false} ParseNatToString(n: nat)
    ensures ParseNat(NatToString(n)) == Some(n)
    ensures DigitsValue(NatToString(n)) == n
  {
    var s := NatToString(n);
    if n >= 10 {
      ParseNatToString(n / 10);
      assert s[..|s| - 1] == NatToString(n / 10);
      assert DigitValue(s[|s| - 1]) == n % 10;
    }
    assert ParseNat(s) == Some(DigitsValue(s));
  }

  /** The index of the first occurrence of c in s. */
  function IndexOf(s: string, c: char): (i: nat)
    requires c in s
    ensures i < |s| && s[i] == c && c !in s[..i]
  {
    if s[0] == c then 0 else 1 + IndexOf(s[1..], c)
  }

  /**
   * The maximal runs of s between occurrences of sep, as Python's str.split(sep)
   * gives them: there is always one more piece than there are separators.
   */
  function Split(s: string, sep: char): (r: seq<string>)
    ensures |r| > 0
    decreases |s|
  {
    if sep !in s then [s]
    else
      var i := IndexOf(s, sep);
      [s[..i]] + Split(s[i + 1..], sep)
  }

  lemma SplitCons(a: string, b: string, sep: char)
    requires sep !in a
    ensures Split(a + [sep] + b, sep) == [a] + Split(b, sep)
  {
    var s := a + [sep] + b;
    assert s[|a|] == sep;
    assert s[..|a|] == a;
    var i := IndexOf(s, sep);
    assert s[..i] == a;
    assert s[i + 1..] == b;
  }

  /** Each line followed by a line feed, in order. */
  function JoinLines(lines: seq<string>): string
  {
    if |lines| == 0 then [] else lines[0] + "\n" + JoinLines(lines[1..])
  }

  predicate NoneContains(lines: seq<string>, c: char)
  {
    forall i | 0 <= i < |lines| :: c !in lines[i]
  }

  /** Neither the first line nor any later one holds c. */
  lemma NoneContainsTail(lines: seq<string>, c: char)
    requires |lines| > 0 && NoneContains(lines, c)
    ensures c !in lines[0] && NoneContains(lines[1..], c)
  {
    forall i | 0 <= i < |lines[1..]| ensures c !in lines[1..][i] {
      assert lines[1..][i] == lines[i + 1];
    }
  }

  /** Splitting newline-terminated lines at line feeds gives the lines back, then what follows. */
  lemma {:induction false} SplitJoinLines(lines: seq<string>, tail: string)
    requires NoneContains(lines, '\n')
    ensures Split(JoinLines(lines) + tail, '\n') == lines + Split(tail, '\n')
  {
    if |lines| == 0 {
      assert JoinLines(lines) + tail == tail;
    } else {
      NoneContainsTail(lines, '\n');
      var rest := JoinLines(lines[1..]) + tail;
      assert JoinLines(lines) + tail == lines[0] + ['\n'] + rest;
      SplitCons(lines[0], rest, '\n');
      SplitJoinLines(lines[1..], tail);
      Seqs.HeadTail(lines, Split(tail, '\n'));
    }
  }

  lemma {:induction false} JoinLinesAppend(a: seq<string>, b: seq<string>)
    ensures JoinLines(a + b) == JoinLines(a) + JoinLines(b)
    decreases |a|
  {
    if |a| > 0 {
      assert (a + b)[1..] == a[1..] + b;
      JoinLinesAppend(a[1..], b);
    } else {
      assert a + b == b;
    }
  }
}
