/**
 * Raw bytes and the ASCII text operations both implementations apply to
 * keys and command names: whitespace trimming and case mapping.
 */
module Bytes {
  newtype byte = b: int | 0 <= b < 256

  const LF: byte := 10
  const CR: byte := 13
  const SPACE: byte := 32
  const CRLF: seq<byte> := [CR, LF]

  /** The bytes of an ASCII string literal. */
  function Ascii(s: string): seq<byte>
    requires forall i :: 0 <= i < |s| ==> s[i] as int < 128
  {
    seq(|s|, i requires 0 <= i < |s| => s[i] as int as byte)
  }

  /** The bytes `s` sit in `buf` at `pos`. */
  predicate At(buf: seq<byte>, pos: nat, s: seq<byte>) {
    pos + |s| <= |buf| && buf[pos..pos + |s|] == s
  }

  /** Bytes `h + t` at `at` are `h` at `at` followed by `t`. */
  lemma {:induction false} SplitAt(buf: seq<byte>, at: nat, h: seq<byte>, t: seq<byte>)
    requires At(buf, at, h + t)
    ensures At(buf, at, h) && At(buf, at + |h|, t)
  {
    assert buf[at..at + |h|] == buf[at..at + |h + t|][..|h|];
    assert buf[at + |h|..at + |h| + |t|] == buf[at..at + |h + t|][|h|..];
  }

  /** The bytes end with a CRLF line terminator. */
  predicate EndsWithCRLF(s: seq<byte>) {
    |s| >= 2 && s[|s| - 2..] == CRLF
  }

  /** ASCII white space: tab, line feed, vertical tab, form feed, carriage return and space. */
  predicate IsSpace(b: byte) {
    b == SPACE || 9 <= b <= 13
  }

  predicate AllSpace(s: seq<byte>) {
    forall i :: 0 <= i < |s| ==> IsSpace(s[i])
  }

  /**
   * White space removed from both ends (Go's strings.TrimSpace and Rust's
   * str::trim over ASCII): first from the front, then from the back.
   */
  function TrimSpace(s: seq<byte>): seq<byte> {
    TrimBack(TrimFront(s))
  }

  function TrimFront(s: seq<byte>): seq<byte>
    decreases |s|
  {
    if s != [] && IsSpace(s[0]) then TrimFront(s[1..]) else s
  }

  function TrimBack(s: seq<byte>): seq<byte>
    decreases |s|
  {
    if s != [] && IsSpace(s[|s| - 1]) then TrimBack(s[..|s| - 1]) else s
  }

  /**
   * `r` is the slice `s[i..j]` of `s`, everything cut off on either side
   * is white space, and a non-empty `r` starts and ends with a byte that is
   * not.
   */
  predicate TrimsTo(s: seq<byte>, r: seq<byte>, i: nat, j: nat) {
    && i <= j <= |s| && r == s[i..j]
    && AllSpace(s[..i]) && AllSpace(s[j..])
    && (i < j ==> !IsSpace(s[i]) && !IsSpace(s[j - 1]))
  }

  /** TrimFront drops a white-space prefix and stops at the first other byte. */
  lemma {:induction false} TrimFrontDrops(s: seq<byte>) returns (i: nat)
    ensures i <= |s| && TrimFront(s) == s[i..] && AllSpace(s[..i])
    ensures i < |s| ==> !IsSpace(s[i])
    decreases |s|
  {
    if s != [] && IsSpace(s[0]) {
      var t := s[1..];
      var k := TrimFrontDrops(t);
      i := k + 1;
      assert t[k..] == s[i..];
      forall m | 0 <= m < i
        ensures IsSpace(s[..i][m])
      {
        if m > 0 {
          assert s[..i][m] == t[..k][m - 1];
        }
      }
    } else {
      i := 0;
    }
  }

  /** TrimBack keeps a prefix and drops only white space after it. */
  lemma {:induction false} TrimBackKeeps(s: seq<byte>) returns (j: nat)
    ensures j <= |s| && TrimBack(s) == s[..j] && AllSpace(s[j..])
    ensures j > 0 ==> !IsSpace(s[j - 1])
    decreases |s|
  {
    if s != [] && IsSpace(s[|s| - 1]) {
      var t := s[..|s| - 1];
      j := TrimBackKeeps(t);
      assert t[..j] == s[..j];
      forall m | 0 <= m < |s| - j
        ensures IsSpace(s[j..][m])
      {
        if m < |t| - j {
          assert s[j..][m] == t[j..][m];
        }
      }
    } else {
      j := |s|;
    }
  }

  /** TrimSpace cuts white space, and only white space, from both ends. */
  lemma {:induction false} TrimSpaceTrims(s: seq<byte>) returns (i: nat, j: nat)
    ensures TrimsTo(s, TrimSpace(s), i, j)
  {
    i := TrimFrontDrops(s);
    var t := s[i..];
    var k := TrimBackKeeps(t);
    j := i + k;
    assert t[..k] == s[i..j];
    assert t[k..] == s[j..];
    if i < j {
      assert s[i] == t[0] && s[j - 1] == t[k - 1];
    }
  }

  /** Two byte strings are all white space together exactly when each is. */
  lemma {:induction false} AllSpaceConcat(a: seq<byte>, b: seq<byte>)
    ensures AllSpace(a + b) <==> AllSpace(a) && AllSpace(b)
  {
    if AllSpace(a + b) {
      forall k | 0 <= k < |a|
        ensures IsSpace(a[k])
      {
        assert a[k] == (a + b)[k];
      }
      forall k | 0 <= k < |b|
        ensures IsSpace(b[k])
      {
        assert b[k] == (a + b)[|a| + k];
      }
    }
  }

  /**
   * TrimSpace leaves nothing exactly when the input is all white space, and
   * otherwise something that starts and ends with a byte that is not.
   */
  lemma {:induction false} TrimSpaceBlank(s: seq<byte>)
    ensures TrimSpace(s) == [] <==> AllSpace(s)
    ensures TrimSpace(s) != [] ==> !IsSpace(TrimSpace(s)[0]) && !IsSpace(TrimSpace(s)[|TrimSpace(s)| - 1])
  {
    var i, j := TrimSpaceTrims(s);
    if i == j {
      assert s == s[..i] + s[j..];
      AllSpaceConcat(s[..i], s[j..]);
    } else {
      assert !IsSpace(s[i]);
    }
  }

  /** A line with no white space at either end, followed by CRLF, trims back to itself. */
  lemma {:induction false} TrimSpaceCRLF(s: seq<byte>)
    requires s != [] && !IsSpace(s[0]) && !IsSpace(s[|s| - 1])
    ensures TrimSpace(s + CRLF) == s
  {
    var x := s + CRLF;
    assert x[0] == s[0];
    assert TrimFront(x) == x;
    assert x[|x| - 1] == LF && x[..|x| - 1] == s + [CR];
    assert (s + [CR])[|s|] == CR && (s + [CR])[..|s|] == s;
    assert TrimBack(s + [CR]) == TrimBack(s);
  }

  function UpperByte(b: byte): byte {
    if 97 <= b <= 122 then b - 32 else b
  }

  function LowerByte(b: byte): byte {
    if 65 <= b <= 90 then b + 32 else b
  }

  /** Go's strings.ToUpper over ASCII. */
  function ToUpper(s: seq<byte>): (r: seq<byte>)
    ensures |r| == |s| && forall i :: 0 <= i < |s| ==> r[i] == UpperByte(s[i])
  {
    seq(|s|, i requires 0 <= i < |s| => UpperByte(s[i]))
  }

  /** Rust's str::to_lowercase over ASCII. */
  function ToLower(s: seq<byte>): (r: seq<byte>)
    ensures |r| == |s| && forall i :: 0 <= i < |s| ==> r[i] == LowerByte(s[i])
  {
    seq(|s|, i requires 0 <= i < |s| => LowerByte(s[i]))
  }

  /** Every byte a lower-case ASCII letter. */
  predicate LowerLetters(name: seq<byte>) {
    forall i :: 0 <= i < |name| ==> 97 <= name[i] <= 122
  }

  /** `s` spells `name` with each letter in either case. */
  predicate SpelledAnyCase(s: seq<byte>, name: seq<byte>) {
    |s| == |name| && forall i :: 0 <= i < |s| ==> s[i] == name[i] || s[i] == UpperByte(name[i])
  }

  /**
   * Lowering a byte string gives a lower-case word exactly when the string
   * spells that word in any mixture of cases.
   */
  lemma {:induction false} LowerAnyCase(s: seq<byte>, name: seq<byte>)
    requires LowerLetters(name)
    ensures ToLower(s) == name <==> SpelledAnyCase(s, name)
  {
    if ToLower(s) == name {
      forall i | 0 <= i < |s|
        ensures s[i] == name[i] || s[i] == UpperByte(name[i])
      {
        assert LowerByte(s[i]) == name[i];
      }
    }
    if SpelledAnyCase(s, name) {
      forall i | 0 <= i < |s|
        ensures ToLower(s)[i] == name[i]
      {
        assert 97 <= name[i] <= 122;
      }
    }
  }
}
