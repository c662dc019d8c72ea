/**
 * Line assembly in the curl write callback (curl_manager.c): upstream bytes arrive cut anywhere,
 * and whole lines, less a trailing carriage return, are handed on.
 */
module LineAssembly {
  import opened Bytes

  const FIRST_CAPACITY: nat := 4096

  // ----- what the lines of a stream are

  function StripCr(line: seq<byte>): seq<byte> {
    if line != [] && line[|line| - 1] == CR then line[..|line| - 1] else line
  }

  function StripAll(raw: seq<seq<byte>>): (r: seq<seq<byte>>)
    ensures |r| == |raw|
  {
    if raw == [] then [] else [StripCr(raw[0])] + StripAll(raw[1..])
  }

  /** The complete lines, each without its newline. */
  function RawLines(s: seq<byte>): seq<seq<byte>> {
    match IndexByte(s, LF)
    case None => []
    case Some(i) => [s[..i]] + RawLines(s[i + 1..])
  }

  /** What follows the last newline. */
  function Rest(s: seq<byte>): (r: seq<byte>)
    ensures LF !in r && |r| <= |s|
  {
    match IndexByte(s, LF)
    case None => s
    case Some(i) => Rest(s[i + 1..])
  }

  function Lines(s: seq<byte>): seq<seq<byte>> {
    StripAll(RawLines(s))
  }

  function Unsplit(raw: seq<seq<byte>>, rest: seq<byte>): seq<byte> {
    if raw == [] then rest else raw[0] + ([LF] + Unsplit(raw[1..], rest))
  }

  predicate LfFree(raw: seq<seq<byte>>) {
    forall line | line in raw :: LF !in line
  }

  lemma UnsplitCons(line: seq<byte>, raw: seq<seq<byte>>, rest: seq<byte>)
    ensures Unsplit([line] + raw, rest) == line + ([LF] + Unsplit(raw, rest))
    ensures LfFree([line] + raw) <==> LF !in line && LfFree(raw)
  {
    var all := [line] + raw;
    assert all[0] == line && all[1..] == raw;
    assert forall x | x in raw :: x in all;
  }

  lemma AtNewline(s: seq<byte>, i: nat)
    requires i < |s| && s[i] == LF
    ensures s == s[..i] + ([LF] + s[i + 1..])
  {
  }

  lemma AfterLine(line: seq<byte>, tail: seq<byte>)
    ensures var s := line + ([LF] + tail); s[|line|] == LF && s[..|line|] == line && s[|line| + 1..] == tail
  {
  }

  lemma {:induction false} FirstLfIs(s: seq<byte>, i: nat)
    requires i < |s| && s[i] == LF && LF !in s[..i]
    ensures IndexByte(s, LF) == Some(i)
  {
    if i > 0 {
      assert s[..i][0] == s[0] && s[..i][1..] == s[1..][..i - 1];
      FirstLfIs(s[1..], i - 1);
    }
  }

  lemma UnsplitNone(rest: seq<byte>)
    ensures Unsplit([], rest) == rest && LfFree([])
  {
  }

  /** Nothing is lost: the lines with their newlines, and the rest, are the stream. */
  lemma {:induction false} SplitRestores(s: seq<byte>)
    ensures Unsplit(RawLines(s), Rest(s)) == s && LfFree(RawLines(s))
  {
    hide Unsplit, LfFree, IndexByte;
    match IndexByte(s, LF)
    case None => UnsplitNone(s);
    case Some(i) =>
      SplitRestores(s[i + 1..]);
      UnsplitCons(s[..i], RawLines(s[i + 1..]), Rest(s[i + 1..]));
      AtNewline(s, i);
  }

  lemma SplitFirst(line: seq<byte>, tail: seq<byte>)
    requires LF !in line
    ensures var s := line + ([LF] + tail); RawLines(s) == [line] + RawLines(tail) && Rest(s) == Rest(tail)
  {
    AfterLine(line, tail);
    FirstLfIs(line + ([LF] + tail), |line|);
  }

  /** And there is no other way to read the stream as lines. */
  lemma {:induction false} SplitUnique(raw: seq<seq<byte>>, rest: seq<byte>)
    requires LF !in rest && LfFree(raw)
    ensures RawLines(Unsplit(raw, rest)) == raw && Rest(Unsplit(raw, rest)) == rest
  {
    if raw != [] {
      var line, more := raw[0], raw[1..];
      assert raw == [line] + more;
      UnsplitCons(line, more, rest);
      SplitUnique(more, rest);
      SplitFirst(line, Unsplit(more, rest));
    }
  }

  // ----- what the C code finds: `strchr` gives up at a zero byte

  function StrChrLf(s: seq<byte>): (r: Option<nat>)
    ensures r.Some? ==> r.value < |s| && s[r.value] == LF && NUL !in s[..r.value] && LF !in s[..r.value]
  {
    if s == [] || s[0] == NUL then None
    else if s[0] == LF then Some(0)
    else
      match StrChrLf(s[1..])
      case None => None
      case Some(i) =>
        assert s[..i + 1] == [s[0]] + s[1..][..i];
        Some(i + 1)
  }

  function FoundLines(s: seq<byte>): seq<seq<byte>> {
    match StrChrLf(s)
    case None => []
    case Some(i) => [StripCr(s[..i])] + FoundLines(s[i + 1..])
  }

  function Kept(s: seq<byte>): seq<byte> {
    match StrChrLf(s)
    case None => s
    case Some(i) => Kept(s[i + 1..])
  }

  function BeforeNul(s: seq<byte>): (r: seq<byte>)
    ensures r <= s && NUL !in r && (r == s || s[|r|] == NUL)
  {
    if s == [] || s[0] == NUL then [] else [s[0]] + BeforeNul(s[1..])
  }

  lemma {:induction false} FoundBeforeNul(s: seq<byte>)
    ensures StrChrLf(s) == IndexByte(BeforeNul(s), LF)
  {
    if s != [] && s[0] != NUL {
      FoundBeforeNul(s[1..]);
      assert BeforeNul(s)[1..] == BeforeNul(s[1..]);
    }
  }

  lemma {:induction false} BeforeNulFrom(s: seq<byte>, i: nat)
    requires i <= |BeforeNul(s)|
    ensures BeforeNul(s[i..]) == BeforeNul(s)[i..]
  {
    if i > 0 {
      BeforeNulFrom(s[1..], i - 1);
      assert s[1..][i - 1..] == s[i..] && BeforeNul(s)[1..] == BeforeNul(s[1..]);
    }
  }

  lemma StripCons(line: seq<byte>, raw: seq<seq<byte>>)
    ensures StripAll([line] + raw) == [StripCr(line)] + StripAll(raw)
  {
    assert ([line] + raw)[1..] == raw;
  }

  /** The lines found are those of the stream up to its first zero byte; all the rest is kept. */
  lemma {:induction false} FoundIsPrefix(s: seq<byte>)
    ensures FoundLines(s) == Lines(BeforeNul(s)) && Kept(s) == Rest(BeforeNul(s)) + s[|BeforeNul(s)|..]
  {
    hide IndexByte, StrChrLf, BeforeNul;
    var t := BeforeNul(s);
    FoundBeforeNul(s);
    match IndexByte(t, LF)
    case None =>
      assert s == t + s[|t|..];
    case Some(i) =>
      BeforeNulFrom(s, i + 1);
      FoundIsPrefix(s[i + 1..]);
      assert s[..i] == t[..i] && s[i + 1..][|t| - i - 1..] == s[|t|..];
      StripCons(t[..i], RawLines(t[i + 1..]));
  }

  lemma FirstLfAppend(a: seq<byte>, b: seq<byte>)
    requires IndexByte(a, LF).Some?
    ensures var i := IndexByte(a, LF).value;
            IndexByte(a + b, LF) == Some(i) && (a + b)[..i] == a[..i] && (a + b)[i + 1..] == a[i + 1..] + b
  {
    var i := IndexByte(a, LF).value;
    assert (a + b)[..i] == a[..i];
    FirstLfIs(a + b, i);
  }

  lemma {:induction false} LinesAppend(a: seq<byte>, b: seq<byte>)
    ensures RawLines(a + b) == RawLines(a) + RawLines(Rest(a) + b)
  {
    hide IndexByte;
    match IndexByte(a, LF)
    case None =>
    case Some(i) =>
      FirstLfAppend(a, b);
      LinesAppend(a[i + 1..], b);
      Assoc([a[..i]], RawLines(a[i + 1..]), RawLines(Rest(a) + b));
  }

  lemma NoLines(s: seq<byte>)
    ensures RawLines(s) == [] <==> LF !in s
  {
  }

  /** Exactly the streams on which the C search finds every line: no newline after a zero byte. */
  lemma FoundAllIff(s: seq<byte>)
    ensures FoundLines(s) == Lines(s) <==> LF !in s[|BeforeNul(s)|..]
  {
    hide BeforeNul, IndexByte, FoundLines, Kept, RawLines, StripAll;
    var t := BeforeNul(s);
    var u := s[|t|..];
    FoundIsPrefix(s);
    assert RawLines(s) == RawLines(t) + RawLines(Rest(t) + u) by {
      assert s == t + u;
      LinesAppend(t, u);
    }
    NoLines(Rest(t) + u);
    assert LF in Rest(t) + u <==> LF in u;
    if LF in u {
      assert |RawLines(s)| > |RawLines(t)|;
    } else {
      assert RawLines(s) == RawLines(t);
    }
  }

  /** A stream in which a line is never found. */
  lemma LostAfterNul()
    ensures FoundLines([NUL, LF]) == [] && Lines([NUL, LF]) != []
  {
    assert LF in [NUL, LF][|BeforeNul([NUL, LF])|..] by {
      assert [NUL, LF][0..][1] == LF;
    }
    FoundAllIff([NUL, LF]);
  }

  /** On a stream without zero bytes the C search is an exact split into lines. */
  lemma NulFree(s: seq<byte>)
    requires NUL !in s
    ensures FoundLines(s) == Lines(s) && Kept(s) == Rest(s)
  {
    hide FoundLines, Kept, Rest, Lines;
    assert BeforeNul(s) == s;
    FoundIsPrefix(s);
    assert Rest(s) + s[|s|..] == Rest(s);
  }

  lemma {:induction false} StrChrAppend(a: seq<byte>, b: seq<byte>)
    requires StrChrLf(a).Some?
    ensures StrChrLf(a + b) == StrChrLf(a)
  {
    if a[0] != LF {
      StrChrAppend(a[1..], b);
      assert (a + b)[1..] == a[1..] + b;
    }
  }

  /** Where the stream is cut does not matter: `a` first, then what it left together with `b`. */
  lemma {:induction false} CutAnywhere(a: seq<byte>, b: seq<byte>)
    ensures FoundLines(a + b) == FoundLines(a) + FoundLines(Kept(a) + b)
    ensures Kept(a + b) == Kept(Kept(a) + b)
  {
    hide StrChrLf;
    match StrChrLf(a)
    case None =>
    case Some(i) =>
      StrChrAppend(a, b);
      CutAnywhere(a[i + 1..], b);
      assert (a + b)[i + 1..] == a[i + 1..] + b && (a + b)[..i] == a[..i];
      Assoc([StripCr(a[..i])], FoundLines(a[i + 1..]), FoundLines(Kept(a) + b));
  }

  lemma NothingFound(s: seq<byte>)
    requires StrChrLf(s) == None
    ensures FoundLines(s) == [] && Kept(s) == s
  {
  }

  // ----- either ending

  predicate IsLine(line: seq<byte>) {
    NUL !in line && LF !in line && (line != [] ==> line[|line| - 1] != CR)
  }

  function Ending(crlf: bool): seq<byte> {
    if crlf then [CR, LF] else [LF]
  }

  /** Lines as a server writes them, each with a newline or with a carriage return and a newline. */
  function Written(lines: seq<seq<byte>>, crlf: seq<bool>): seq<byte>
    requires |lines| == |crlf|
  {
    if lines == [] then [] else lines[0] + Ending(crlf[0]) + Written(lines[1..], crlf[1..])
  }

  lemma {:induction false} FirstLf(front: seq<byte>, tail: seq<byte>)
    requires NUL !in front && LF !in front
    ensures StrChrLf(front + ([LF] + tail)) == Some(|front|)
  {
    if front == [] {
      assert [] + ([LF] + tail) == [LF] + tail;
    } else {
      FirstLf(front[1..], tail);
      assert (front + ([LF] + tail))[1..] == front[1..] + ([LF] + tail);
    }
  }

  lemma FirstLine(line: seq<byte>, crlf: bool, tail: seq<byte>)
    requires IsLine(line)
    ensures var s := line + Ending(crlf) + tail;
            FoundLines(s) == [line] + FoundLines(tail) && Kept(s) == Kept(tail)
  {
    hide StrChrLf;
    var front := if crlf then line + [CR] else line;
    var s := line + Ending(crlf) + tail;
    assert s == front + ([LF] + tail);
    FirstLf(front, tail);
    assert s[..|front|] == front && s[|front| + 1..] == tail;
    assert crlf ==> front[..|front| - 1] == line;
  }

  lemma {:induction false} NoLfFound(s: seq<byte>)
    requires LF !in s
    ensures StrChrLf(s) == None
  {
    if s != [] {
      NoLfFound(s[1..]);
    }
  }

  /** Whichever way the lines end, they are found without their endings, and what follows the last is kept. */
  lemma {:induction false} EitherEnding(lines: seq<seq<byte>>, crlf: seq<bool>, rest: seq<byte>)
    requires |lines| == |crlf| && (forall i | 0 <= i < |lines| :: IsLine(lines[i])) && LF !in rest
    ensures FoundLines(Written(lines, crlf) + rest) == lines && Kept(Written(lines, crlf) + rest) == rest
  {
    hide FoundLines, Kept, StrChrLf;
    if lines == [] {
      assert [] + rest == rest;
      NoLfFound(rest);
      NothingFound(rest);
    } else {
      var tail := Written(lines[1..], crlf[1..]) + rest;
      Assoc(lines[0] + Ending(crlf[0]), Written(lines[1..], crlf[1..]), rest);
      FirstLine(lines[0], crlf[0], tail);
      EitherEnding(lines[1..], crlf[1..], rest);
      assert lines == [lines[0]] + lines[1..];
    }
  }

  // ----- the buffer

  /** `strchr(from, '\n')` on a zero-terminated array; -1 for no match. */
  method StrChr(a: array<byte>, from: nat, ghost len: nat) returns (r: int)
    requires from <= len < a.Length && a[len] == NUL
    ensures r == (match StrChrLf(a[from..len]) case None => -1 case Some(i) => from + i)
  {
    r := from;
    while a[r] != LF && a[r] != NUL
      invariant from <= r <= len
      invariant StrChrLf(a[from..len]) ==
                (match StrChrLf(a[r..len]) case None => None case Some(i) => Some(r - from + i))
      decreases len - r
    {
      assert a[r..len][1..] == a[r + 1..len] && a[r..len][0] == a[r];
      r := r + 1;
    }
    assert r < len ==> a[r..len][0] == a[r];
    if a[r] == NUL {
      r := -1;
    }
  }

  class LineBuffer {
    var buf: array?<byte>
    var len: nat
    var cap: nat

    ghost predicate Valid()
      reads this
    {
      if buf == null then len == 0 else cap == buf.Length && len < cap
    }

    /** The bytes of an unfinished line. */
    ghost function Held(): seq<byte>
      reads this, buf
      requires Valid()
    {
      if buf == null then [] else buf[..len]
    }

    constructor ()
      ensures Valid() && Held() == []
    {
      buf := null;
      len := 0;
      cap := 0;
    }

    method Allocate(size: nat)
      requires Valid() && len < size && (buf == null || cap <= size)
      modifies this`buf, this`cap
      ensures Valid() && buf != null && cap == size && fresh(buf) && Held() == old(Held())
    {
      var bigger := new byte[size](_ => 0);
      if buf != null {
        forall i | 0 <= i < len {
          bigger[i] := buf[i];
        }
        assert bigger[..len] == buf[..len];
      }
      buf := bigger;
      cap := size;
    }

    /** Makes room for `more` bytes and a terminator; false when memory runs out. */
    method Reserve(more: nat, canCreate: bool, canGrow: bool) returns (ok: bool)
      requires Valid()
      modifies this`buf, this`cap
      ensures Valid() && Held() == old(Held()) && (buf == old(buf) || fresh(buf))
      ensures ok ==> buf != null && len + more < cap
      ensures canCreate && canGrow ==> ok
    {
      if buf == null {
        if !canCreate {
          return false;
        }
        Allocate(FIRST_CAPACITY);
      }
      if len + more + 1 > cap {
        var newCap := cap * 2;
        if newCap < len + more + 1 {
          newCap := len + more + 1;
        }
        if !canGrow {
          return false;
        }
        Allocate(newCap);
      }
      return true;
    }

    /** `memcpy` of a chunk behind the held bytes, and the terminator. */
    method CopyIn(chunk: seq<byte>)
      requires Valid() && buf != null && len + |chunk| < cap
      modifies this`len, buf
      ensures Valid() && Held() == old(Held()) + chunk && buf[len] == NUL
    {
      ghost var front := buf[..len];
      forall i | 0 <= i < |chunk| {
        buf[len + i] := chunk[i];
      }
      len := len + |chunk|;
      buf[len] := NUL;
      assert buf[..len] == front + chunk;
    }

    /** Ends the line at `start` in place, dropping its carriage return, and reads it. */
    method EndLine(start: nat, newline: nat) returns (line: seq<byte>)
      requires Valid() && buf != null && start <= newline < len && buf[len] == NUL
      modifies buf
      ensures Valid()
      ensures line == StripCr(old(buf[start..newline]))
      ensures buf[newline + 1..len] == old(buf[newline + 1..len]) && buf[len] == NUL
      ensures buf[start + |line|] == NUL && buf[start..start + |line|] == line
    {
      buf[newline] := NUL;
      if newline > start && buf[newline - 1] == CR {
        buf[newline - 1] := NUL;
        line := buf[start..newline - 1];
      } else {
        line := buf[start..newline];
      }
    }

    /** `memmove` of the unfinished line to the front. */
    method MoveDown(start: nat)
      requires Valid() && buf != null && start <= len
      modifies this`len, buf
      ensures Valid() && Held() == old(buf[start..len])
    {
      if start != 0 {
        ghost var rest := buf[start..len];
        var remaining := len - start;
        forall i | 0 <= i < remaining {
          buf[i] := buf[start + i];
        }
        len := remaining;
        buf[len] := NUL;
        assert buf[..len] == rest;
      }
    }

    /** One turn of the loop over complete lines: the found line, which leaves the stream. */
    method EmitLine(start: nat, newline: nat, ghost all: seq<byte>) returns (line: seq<byte>)
      requires Valid() && buf != null && start <= newline < len == |all| && buf[len] == NUL
      requires buf[start..len] == all[start..] && StrChrLf(all[start..]) == Some(newline - start)
      modifies buf
      ensures Valid() && buf[len] == NUL && buf[newline + 1..len] == all[newline + 1..]
      ensures FoundLines(all[start..]) == [line] + FoundLines(all[newline + 1..])
      ensures Kept(all[start..]) == Kept(all[newline + 1..])
    {
      hide StrChrLf;
      assert buf[start..len][..newline - start] == buf[start..newline];
      assert buf[start..len][newline - start + 1..] == buf[newline + 1..len];
      assert all[start..][newline - start + 1..] == all[newline + 1..];
      line := EndLine(start, newline);
    }

    method TakeLines(ghost all: seq<byte>, failAt: Option<nat>) returns (ok: bool, lines: seq<seq<byte>>)
      requires Valid() && buf != null && Held() == all && buf[len] == NUL
      modifies this`len, buf
      ensures Valid() && (ok ==> lines == FoundLines(all) && Held() == Kept(all))
      ensures !ok ==> lines != [] && failAt == Some(|lines| - 1) && lines <= FoundLines(all)
    {
      hide FoundLines, Kept, StrChrLf;
      lines := [];
      ok := true;
      assert buf[0..len] == all == all[0..];
      var start := 0;
      var newline := StrChr(buf, 0, len);
      while newline != -1
        invariant Valid() && start <= len == |all| && buf[len] == NUL && buf[start..len] == all[start..]
        invariant FoundLines(all) == lines + FoundLines(all[start..]) && Kept(all) == Kept(all[start..])
        invariant newline == (match StrChrLf(all[start..]) case None => -1 case Some(i) => start + i)
        invariant newline < len
        decreases len - start
      {
        var line := EmitLine(start, newline, all);
        Assoc(lines, [line], FoundLines(all[newline + 1..]));
        lines := lines + [line];
        if failAt == Some(|lines| - 1) {
          ok := false;
          return;
        }
        start := newline + 1;
        newline := StrChr(buf, start, len);
      }
      NothingFound(all[start..]);
      MoveDown(start);
    }

    /**
     * One call of the write callback: every complete line is handed on, the unfinished one is kept.
     * A line numbered `failAt` is refused by `process_sse_line`, which ends the transfer.
     */
    method Feed(chunk: seq<byte>, canCreate: bool, canGrow: bool, failAt: Option<nat>)
        returns (ok: bool, lines: seq<seq<byte>>)
      requires Valid()
      modifies this, buf
      ensures Valid() && (buf == old(buf) || fresh(buf))
      ensures ok ==> lines == FoundLines(old(Held()) + chunk) && Held() == Kept(old(Held()) + chunk)
      ensures !ok && lines == [] ==> Held() == old(Held()) && !(canCreate && canGrow)
      ensures !ok && lines != [] ==> failAt == Some(|lines| - 1) && lines <= FoundLines(old(Held()) + chunk)
      ensures canCreate && canGrow && failAt == None ==> ok
    {
      hide FoundLines, Kept, StrChrLf;
      lines := [];
      ghost var all := Held() + chunk;
      ok := Reserve(|chunk|, canCreate, canGrow);
      if ok {
        CopyIn(chunk);
        ok, lines := TakeLines(all, failAt);
      }
    }
  }

  /**
   * However an upstream is cut into chunks, the lines handed on are those of the whole stream, and the
   * buffer holds what follows the last of them.
   */
  method FeedAll(b: LineBuffer, chunks: seq<seq<byte>>) returns (lines: seq<seq<byte>>)
    requires b.Valid() && b.Held() == []
    modifies b, b.buf
    ensures b.Valid() && lines == FoundLines(Flatten(chunks)) && b.Held() == Kept(Flatten(chunks))
    ensures NUL !in Flatten(chunks) ==> lines == Lines(Flatten(chunks)) && b.Held() == Rest(Flatten(chunks))
  {
    hide FoundLines, Kept, Rest, Lines;
    lines := [];
    NothingFound([]);
    for i := 0 to |chunks|
      invariant b.Valid() && (b.buf == old(b.buf) || fresh(b.buf))
      invariant lines == FoundLines(Flatten(chunks[..i])) && b.Held() == Kept(Flatten(chunks[..i]))
    {
      ghost var before := Flatten(chunks[..i]);
      assert chunks[..i + 1] == chunks[..i] + [chunks[i]];
      FlattenSnoc(chunks[..i], chunks[i]);
      CutAnywhere(before, chunks[i]);
      var ok, more := b.Feed(chunks[i], true, true, None);
      lines := lines + more;
    }
    assert chunks[..|chunks|] == chunks;
    if NUL !in Flatten(chunks) {
      NulFree(Flatten(chunks));
    }
  }
}
