/** Bytes, the named characters of the two wire formats, and sequence helpers shared by every module. */
module Bytes {

  type byte = b: int | 0 <= b < 256

  const NUL: byte := 0
  const BACKSPACE: byte := 8
  const TAB: byte := 9
  const LF: byte := 10
  const FORMFEED: byte := 12
  const CR: byte := 13
  const SPACE: byte := 32
  const QUOTE: byte := 34
  const PLUS: byte := 43
  const COMMA: byte := 44
  const MINUS: byte := 45
  const SLASH: byte := 47
  const ZERO: byte := 48
  const NINE: byte := 57
  const COLON: byte := 58
  const LBRACKET: byte := 91
  const BACKSLASH: byte := 92
  const RBRACKET: byte := 93
  const LETTER_B: byte := 98
  const LETTER_F: byte := 102
  const LETTER_N: byte := 110
  const LETTER_R: byte := 114
  const LETTER_T: byte := 116
  const LETTER_U: byte := 117
  const LBRACE: byte := 123
  const RBRACE: byte := 125

  datatype Option<+T> = None | Some(value: T)

  /** The bytes of an ASCII literal. */
  function Ascii(s: string): (r: seq<byte>)
    ensures |r| == |s|
  {
    seq(|s|, i requires 0 <= i < |s| => s[i] as int % 256)
  }

  lemma AsciiConcat(s: string, t: string)
    ensures Ascii(s + t) == Ascii(s) + Ascii(t)
  {
  }

  /** A number in decimal. */
  function Decimal(n: nat): seq<byte> {
    if n < 10 then [ZERO + n] else Decimal(n / 10) + [ZERO + n % 10]
  }

  lemma Assoc<T>(a: seq<T>, b: seq<T>, c: seq<T>)
    ensures a + (b + c) == (a + b) + c
  {
  }

  /** Concatenation of a sequence of sequences. */
  function Flatten<T>(ss: seq<seq<T>>): seq<T> {
    if ss == [] then [] else ss[0] + Flatten(ss[1..])
  }

  lemma {:induction false} FlattenAppend<T>(a: seq<seq<T>>, b: seq<seq<T>>)
    ensures Flatten(a + b) == Flatten(a) + Flatten(b)
  {
    if a == [] {
      assert a + b == b;
    } else {
      FlattenAppend(a[1..], b);
      assert (a + b)[0] == a[0] && (a + b)[1..] == a[1..] + b;
    }
  }

  lemma FlattenSnoc<T>(a: seq<seq<T>>, x: seq<T>)
    ensures Flatten(a + [x]) == Flatten(a) + x
  {
    FlattenAppend(a, [x]);
    assert Flatten([x]) == x + Flatten<T>([]) == x;
  }

  /** The offset of the first byte `b`. */
  function IndexByte(s: seq<byte>, b: byte): (r: Option<nat>)
    ensures r.Some? ==> r.value < |s| && s[r.value] == b && b !in s[..r.value]
    ensures r.None? ==> b !in s
  {
    if s == [] then None
    else if s[0] == b then Some(0)
    else
      var r := IndexByte(s[1..], b);
      if r.None? then None
      else
        assert s[..r.value + 1] == [s[0]] + s[1..][..r.value];
        Some(r.value + 1)
  }

  /** `pat` occurs in `data` at offset `i`. */
  predicate OccursAt(data: seq<byte>, pat: seq<byte>, i: nat) {
    i + |pat| <= |data| && data[i..i + |pat|] == pat
  }

  /** The offset of the first occurrence of `pat`, as `bytes.Index` and `strstr` report it. */
  function IndexOf(data: seq<byte>, pat: seq<byte>): (r: Option<nat>)
    ensures r.Some? ==> OccursAt(data, pat, r.value) && forall i: nat | i < r.value :: !OccursAt(data, pat, i)
    ensures r.None? ==> forall i: nat :: !OccursAt(data, pat, i)
  {
    if OccursAt(data, pat, 0) then Some(0)
    else if data == [] then
      None
    else
      var r := IndexOf(data[1..], pat);
      assert forall i: nat | i > 0 :: OccursAt(data, pat, i) ==> OccursAt(data[1..], pat, i - 1) by {
        forall i: nat | i > 0 && OccursAt(data, pat, i)
          ensures OccursAt(data[1..], pat, i - 1)
        {
          assert data[1..][i - 1..i - 1 + |pat|] == data[i..i + |pat|];
        }
      }
      if r.None? then None
      else
        assert data[1..][r.value..r.value + |pat|] == data[r.value + 1..r.value + 1 + |pat|];
        assert forall i: nat | i < r.value + 1 :: !OccursAt(data, pat, i);
        Some(r.value + 1)
  }

  /** An occurrence with no earlier one is the one `IndexOf` finds. */
  lemma FirstOccurrence(data: seq<byte>, pat: seq<byte>, k: nat)
    requires OccursAt(data, pat, k)
    requires forall i: nat | i < k :: !OccursAt(data, pat, i)
    ensures IndexOf(data, pat) == Some(k)
  {
    var r := IndexOf(data, pat);
    assert r.Some? && !(r.value < k);
  }

  ghost predicate Absent(data: seq<byte>, pat: seq<byte>) {
    forall i: nat :: !OccursAt(data, pat, i)
  }

  /** When `pat` follows `head`, it begins nowhere before. */
  predicate ComesFirst(head: seq<byte>, pat: seq<byte>) {
    forall i: nat | i < |head| :: !OccursAt(head + pat, pat, i)
  }

  /** So it is found there, whatever comes after it. */
  lemma FoundAt(head: seq<byte>, pat: seq<byte>, rest: seq<byte>)
    requires ComesFirst(head, pat)
    ensures IndexOf(head + (pat + rest), pat) == Some(|head|)
    ensures (head + (pat + rest))[|head| + |pat|..] == rest
  {
    hide IndexOf;
    var data := head + (pat + rest);
    assert data[|head|..|head| + |pat|] == pat;
    forall i: nat | i < |head|
      ensures !OccursAt(data, pat, i)
    {
      assert data[i..i + |pat|] == (head + pat)[i..i + |pat|];
      assert !OccursAt(head + pat, pat, i);
    }
    FirstOccurrence(data, pat, |head|);
  }
}
