/** `parsePlaceholders` of backends/langgraph.go: cutting a prompt at its `{ref}` placeholders. */
module Placeholders {
  import opened Bytes
  import opened NameOrder

  datatype Attachment = Attachment(mime: seq<byte>, isText: bool, base64: seq<byte>, text: seq<byte>)

  type Attachments = map<name, Attachment>

  /** A stretch of prompt: literal text, an inlined text attachment, or a binary attachment. */
  datatype Part = Part(text: seq<byte>, attachment: Option<Attachment>, ref: name)

  function Literal(text: seq<byte>): Part {
    Part(text, None, [])
  }

  /** What stands at a placeholder that names `ref`. */
  function Resolved(ref: name, att: Attachment): Part {
    if att.isText then Part(att.text, None, ref) else Part([], Some(att), ref)
  }

  /** The parts one iteration emits, and the text it consumes. */
  function FirstParts(text: seq<byte>, atts: Attachments): (r: (seq<Part>, nat))
    requires text != []
    ensures 1 <= r.1 <= |text|
  {
    var open := IndexByte(text, LBRACE);
    if open.None? then ([Literal(text)], |text|)
    else
      var rest := text[open.value + 1..];
      var close := IndexByte(rest, RBRACE);
      if close.None? then ([Literal(text)], |text|)
      else
        var ref, end := rest[..close.value], open.value + 1 + close.value + 1;
        if ref !in atts then ([Literal(text[..end])], end)
        else
          ((if open.value > 0 then [Literal(text[..open.value])] else []) + [Resolved(ref, atts[ref])], end)
  }

  function Scan(text: seq<byte>, atts: Attachments): seq<Part>
    decreases |text|
  {
    if text == [] then [] else FirstParts(text, atts).0 + Scan(text[FirstParts(text, atts).1..], atts)
  }

  function Parts(text: seq<byte>, atts: Attachments): seq<Part> {
    if atts == map[] || text == [] then [Literal(text)] else Scan(text, atts)
  }

  lemma ScanNotEmpty(text: seq<byte>, atts: Attachments)
    ensures text != [] ==> Scan(text, atts) != []
  {
    if text != [] {
      assert FirstParts(text, atts).0 != [];
    }
  }

  /** The body of the loop in `parsePlaceholders`, entered at index `i`. */
  method NextParts(text: seq<byte>, i: nat, atts: Attachments) returns (parts: seq<Part>, n: nat)
    requires i < |text|
    ensures (parts, n) == FirstParts(text[i..], atts)
  {
    hide IndexByte;
    ghost var t := text[i..];
    var open := IndexByte(text[i..], LBRACE);
    if open.None? {
      return [Literal(text[i..])], |text| - i;
    }
    var openAt := i + open.value;
    assert text[openAt + 1..] == t[open.value + 1..];
    var close := IndexByte(text[openAt + 1..], RBRACE);
    if close.None? {
      return [Literal(text[i..])], |text| - i;
    }
    var closeAt := openAt + 1 + close.value;
    var refName := text[openAt + 1..closeAt];
    assert refName == text[openAt + 1..][..close.value];
    n := closeAt + 1 - i;
    if refName !in atts {
      assert text[i..closeAt + 1] == t[..n];
      return [Literal(text[i..closeAt + 1])], n;
    }
    parts := [];
    if openAt > i {
      assert text[i..openAt] == t[..open.value];
      parts := [Literal(text[i..openAt])];
    }
    parts := parts + [Resolved(refName, atts[refName])];
  }

  method ParsePlaceholders(text: seq<byte>, atts: Attachments) returns (parts: seq<Part>)
    ensures parts == Parts(text, atts)
  {
    hide FirstParts, Literal;
    if |atts| == 0 {
      return [Literal(text)];
    }
    parts := [];
    var i := 0;
    while i < |text|
      invariant 0 <= i <= |text|
      invariant parts + Scan(text[i..], atts) == Scan(text, atts)
    {
      var first, n := NextParts(text, i, atts);
      assert text[i..][n..] == text[i + n..];
      Assoc(parts, first, Scan(text[i + n..], atts));
      parts := parts + first;
      i := i + n;
    }
    ScanNotEmpty(text, atts);
    assert text[i..] == [];
    if |parts| == 0 {
      parts := [Literal([])];
    }
  }

  // ----- losslessness

  /** A part written back into the prompt: a resolved placeholder as `{ref}`, text as itself. */
  function WriteBack(p: Part): seq<byte> {
    if p.ref != [] then [LBRACE] + p.ref + [RBRACE] else p.text
  }

  function WriteAllBack(parts: seq<Part>): seq<byte> {
    if parts == [] then [] else WriteBack(parts[0]) + WriteAllBack(parts[1..])
  }

  lemma {:induction false} WriteAllBackAppend(a: seq<Part>, b: seq<Part>)
    ensures WriteAllBack(a + b) == WriteAllBack(a) + WriteAllBack(b)
  {
    if a == [] {
      assert a + b == b;
    } else {
      calc {
        WriteAllBack(a + b);
        { assert (a + b)[0] == a[0] && (a + b)[1..] == a[1..] + b; }
        WriteBack(a[0]) + WriteAllBack(a[1..] + b);
        { WriteAllBackAppend(a[1..], b); }
        WriteBack(a[0]) + (WriteAllBack(a[1..]) + WriteAllBack(b));
        { Assoc(WriteBack(a[0]), WriteAllBack(a[1..]), WriteAllBack(b)); }
        WriteAllBack(a) + WriteAllBack(b);
      }
    }
  }

  lemma WriteBackSingle(p: Part)
    ensures WriteAllBack([p]) == WriteBack(p)
  {
    assert WriteAllBack([p]) == WriteBack(p) + WriteAllBack([]);
  }

  lemma WriteBackPair(p: Part, q: Part)
    ensures WriteAllBack([p] + [q]) == WriteBack(p) + WriteBack(q)
  {
    WriteAllBackAppend([p], [q]);
    WriteBackSingle(p);
    WriteBackSingle(q);
  }

  /** An empty reference name is told apart from literal text only if it stands for its own braces. */
  predicate EmptyRefHarmless(atts: Attachments) {
    [] in atts ==> atts[[]].isText && atts[[]].text == [LBRACE, RBRACE]
  }

  lemma ResolvedWritesBack(ref: name, atts: Attachments)
    requires ref in atts && EmptyRefHarmless(atts)
    ensures WriteBack(Resolved(ref, atts[ref])) == [LBRACE] + ref + [RBRACE]
  {
  }

  /** A resolved placeholder with the text before it. */
  lemma ResolvedRun(text: seq<byte>, open: nat, close: nat, atts: Attachments)
    requires open + close + 2 <= |text| && text[open] == LBRACE && text[open + 1 + close] == RBRACE
    requires text[open + 1..][..close] in atts && EmptyRefHarmless(atts)
    ensures var resolved := Resolved(text[open + 1..][..close], atts[text[open + 1..][..close]]);
            WriteAllBack((if open > 0 then [Literal(text[..open])] else []) + [resolved]) == text[..open + close + 2]
  {
    var ref := text[open + 1..][..close];
    var resolved := Resolved(ref, atts[ref]);
    ResolvedWritesBack(ref, atts);
    var braced := [LBRACE] + ref + [RBRACE];
    assert text[..open + close + 2] == text[..open] + braced;
    if open > 0 {
      WriteBackPair(Literal(text[..open]), resolved);
    } else {
      WriteBackSingle(resolved);
      assert [] + [resolved] == [resolved] && text[..open] + braced == braced;
    }
  }

  lemma FirstPartsWriteBack(text: seq<byte>, atts: Attachments)
    requires text != [] && EmptyRefHarmless(atts)
    ensures WriteAllBack(FirstParts(text, atts).0) == text[..FirstParts(text, atts).1]
  {
    WriteBackSingle(Literal(text));
    assert text[..|text|] == text;
    var open := IndexByte(text, LBRACE);
    if open.Some? {
      var rest := text[open.value + 1..];
      var close := IndexByte(rest, RBRACE);
      if close.Some? {
        WriteBackSingle(Literal(text[..open.value + close.value + 2]));
        if rest[..close.value] in atts {
          ResolvedRun(text, open.value, close.value, atts);
        }
      }
    }
  }

  lemma {:induction false} ScanLossless(text: seq<byte>, atts: Attachments)
    requires EmptyRefHarmless(atts)
    ensures WriteAllBack(Scan(text, atts)) == text
    decreases |text|
  {
    if text != [] {
      var (parts, n) := FirstParts(text, atts);
      FirstPartsWriteBack(text, atts);
      ScanLossless(text[n..], atts);
      WriteAllBackAppend(parts, Scan(text[n..], atts));
      assert text == text[..n] + text[n..];
    }
  }

  predicate Lossless(atts: Attachments, text: seq<byte>) {
    WriteAllBack(Parts(text, atts)) == text
  }

  /** The empty placeholder, for an attachment under the empty name, is one part with no name. */
  lemma EmptyPlaceholder(atts: Attachments)
    requires [] in atts
    ensures Parts([LBRACE, RBRACE], atts) == [Resolved([], atts[[]])]
  {
    var text := [LBRACE, RBRACE];
    assert IndexByte(text, LBRACE) == Some(0);
    assert text[1..] == [RBRACE] && IndexByte([RBRACE], RBRACE) == Some(0);
    assert [RBRACE][..0] == [] && text[2..] == [];
    assert [] + [Resolved([], atts[[]])] == [Resolved([], atts[[]])];
    assert FirstParts(text, atts) == ([Resolved([], atts[[]])], 2);
    assert Scan([], atts) == [];
  }

  /** Cutting is lossless for every prompt exactly when no attachment hides behind the empty name. */
  lemma LosslessIff(atts: Attachments)
    ensures (forall text :: Lossless(atts, text)) <==> EmptyRefHarmless(atts)
  {
    if EmptyRefHarmless(atts) {
      forall text
        ensures Lossless(atts, text)
      {
        if atts == map[] || text == [] {
          WriteBackSingle(Literal(text));
        } else {
          ScanLossless(text, atts);
        }
      }
    } else {
      var text := [LBRACE, RBRACE];
      EmptyPlaceholder(atts);
      WriteBackSingle(Resolved([], atts[[]]));
      assert !Lossless(atts, text);
    }
  }

  // ----- which placeholders are resolved

  /** What a reader of the prompt meets: a byte of text, or a binary attachment. */
  datatype Mark = Letter(b: byte) | Shown(ref: name, attachment: Attachment)

  function Letters(t: seq<byte>): (r: seq<Mark>)
    ensures |r| == |t| && forall i | 0 <= i < |t| :: r[i] == Letter(t[i])
  {
    seq(|t|, i requires 0 <= i < |t| => Letter(t[i]))
  }

  function Says(p: Part): seq<Mark> {
    if p.attachment.Some? then [Shown(p.ref, p.attachment.value)] else Letters(p.text)
  }

  function SaysAll(parts: seq<Part>): seq<Mark> {
    if parts == [] then [] else Says(parts[0]) + SaysAll(parts[1..])
  }

  /** A brace at `k` that no earlier brace still waits to be closed before. */
  predicate IsOpen(text: seq<byte>, k: nat) {
    k < |text| && text[k] == LBRACE && forall j | 0 <= j < k && text[j] == LBRACE :: RBRACE in text[j..k]
  }

  /** The text from the brace at `k` to the next closing brace. */
  function RefAt(text: seq<byte>, k: nat): Option<name>
    requires k < |text|
  {
    var rest := text[k + 1..];
    match IndexByte(rest, RBRACE)
    case None => None
    case Some(close) => Some(rest[..close])
  }

  /** Exactly the places where an attachment stands: an open brace followed by a known name and a closing brace. */
  predicate IsSite(text: seq<byte>, atts: Attachments, k: nat) {
    IsOpen(text, k) && RefAt(text, k).Some? && RefAt(text, k).value in atts
  }

  function SiteEnd(text: seq<byte>, atts: Attachments, k: nat): nat
    requires IsSite(text, atts, k)
  {
    k + |RefAt(text, k).value| + 2
  }

  /** `k` is in the name or at the closing brace of a resolved placeholder. */
  predicate Inside(text: seq<byte>, atts: Attachments, k: nat) {
    exists j | 0 <= j < k :: IsSite(text, atts, j) && k < SiteEnd(text, atts, j)
  }

  /** What the reader meets at `k`. */
  function MarksAt(text: seq<byte>, atts: Attachments, k: nat): seq<Mark>
    requires k < |text|
  {
    if IsSite(text, atts, k) then Says(Resolved(RefAt(text, k).value, atts[RefAt(text, k).value]))
    else if Inside(text, atts, k) then []
    else [Letter(text[k])]
  }

  /** What the reader meets in the first `n` bytes. */
  function Reading(text: seq<byte>, atts: Attachments, n: nat): seq<Mark>
    requires n <= |text|
  {
    if n == 0 then [] else Reading(text, atts, n - 1) + MarksAt(text, atts, n - 1)
  }

  lemma {:induction false} SaysAppend(a: seq<Part>, b: seq<Part>)
    ensures SaysAll(a + b) == SaysAll(a) + SaysAll(b)
  {
    if a == [] {
      assert a + b == b;
    } else {
      hide Says;
      SaysAppend(a[1..], b);
      assert (a + b)[0] == a[0] && (a + b)[1..] == a[1..] + b;
      assert SaysAll(a + b) == Says(a[0]) + SaysAll(a[1..] + b);
      Assoc(Says(a[0]), SaysAll(a[1..]), SaysAll(b));
    }
  }

  lemma SaysOne(p: Part)
    ensures SaysAll([p]) == Says(p)
  {
    assert SaysAll([p]) == Says(p) + SaysAll([p][1..]);
  }

  lemma BeforeFirst(s: seq<byte>, b: byte)
    requires IndexByte(s, b).Some?
    ensures forall j | 0 <= j < IndexByte(s, b).value :: s[j] != b
  {
    forall j | 0 <= j < IndexByte(s, b).value
      ensures s[j] != b
    {
      assert s[..IndexByte(s, b).value][j] == s[j];
    }
  }

  /** Before the first closing brace after the first opening one there is at most one site, at that brace. */
  lemma OnlyFirstOpen(text: seq<byte>, atts: Attachments, open: nat, k: nat)
    requires IndexByte(text, LBRACE) == Some(open) && IsOpen(text, k) && (k <= open || RBRACE !in text[open..k])
    ensures k == open
  {
    BeforeFirst(text, LBRACE);
  }

  /** Where no placeholder is resolved, the text is read as it is. */
  lemma {:induction false} ReadPlain(text: seq<byte>, atts: Attachments, n: nat)
    requires n <= |text| && forall k | 0 <= k < n :: !IsSite(text, atts, k)
    ensures Reading(text, atts, n) == Letters(text[..n])
  {
    if n > 0 {
      ReadPlain(text, atts, n - 1);
      assert !Inside(text, atts, n - 1);
      assert Letters(text[..n]) == Letters(text[..n - 1]) + [Letter(text[n - 1])];
    }
  }

  lemma NotClosedYet(text: seq<byte>, open: nat, k: nat, n: nat)
    requires open < |text| && text[open] == LBRACE && k < n <= |text|
    requires match IndexByte(text[open + 1..], RBRACE) case None => true case Some(close) => n <= open + close + 2
    ensures k <= open || RBRACE !in text[open..k]
  {
    if open < k {
      var rest := text[open + 1..];
      assert text[open..k] == [LBRACE] + rest[..k - open - 1];
      if close :| IndexByte(rest, RBRACE) == Some(close) {
        assert rest[..k - open - 1] == rest[..close][..k - open - 1];
      }
    }
  }

  /** Nothing is read in a resolved placeholder after its brace. */
  lemma WithinSite(text: seq<byte>, atts: Attachments, open: nat, k: nat)
    requires IndexByte(text, LBRACE) == Some(open) && IsSite(text, atts, open)
             && open < k < SiteEnd(text, atts, open) <= |text|
    ensures MarksAt(text, atts, k) == []
  {
    NotClosedYet(text, open, k, SiteEnd(text, atts, open));
    if IsOpen(text, k) {
      OnlyFirstOpen(text, atts, open, k);
    }
    assert Inside(text, atts, k);
  }

  lemma {:induction false} ReadSite(text: seq<byte>, atts: Attachments, open: nat, n: nat)
    requires IndexByte(text, LBRACE) == Some(open) && IsSite(text, atts, open)
    requires open < n <= SiteEnd(text, atts, open) <= |text|
    ensures Reading(text, atts, n) == Letters(text[..open]) + MarksAt(text, atts, open)
  {
    hide Letters, MarksAt, IndexByte, IsOpen, RefAt;
    if n == open + 1 {
      forall k | 0 <= k < open
        ensures !IsSite(text, atts, k)
      {
        if IsSite(text, atts, k) {
          OnlyFirstOpen(text, atts, open, k);
        }
      }
      ReadPlain(text, atts, open);
    } else {
      ReadSite(text, atts, open, n - 1);
      WithinSite(text, atts, open, n - 1);
    }
  }

  lemma NoLetters()
    ensures Letters([]) == []
  {
  }

  lemma FirstSite(text: seq<byte>, atts: Attachments, open: nat)
    requires IndexByte(text, LBRACE) == Some(open) && IsSite(text, atts, open)
    ensures SaysAll(FirstParts(text, atts).0) == Reading(text, atts, FirstParts(text, atts).1)
  {
    hide Letters, IndexByte, Reading;
    var name := RefAt(text, open).value;
    var p := Resolved(name, atts[name]);
    assert FirstParts(text, atts).1 == SiteEnd(text, atts, open);
    ReadSite(text, atts, open, SiteEnd(text, atts, open));
    SaysOne(p);
    if open > 0 {
      SaysOne(Literal(text[..open]));
      SaysAppend([Literal(text[..open])], [p]);
    } else {
      NoLetters();
      assert text[..0] == [] && [] + [p] == [p];
    }
  }

  lemma FirstIsOpen(text: seq<byte>, open: nat)
    requires IndexByte(text, LBRACE) == Some(open)
    ensures IsOpen(text, open)
  {
    BeforeFirst(text, LBRACE);
  }

  /** When the first brace is not resolved, nothing in the text consumed with it is. */
  lemma NoSite(text: seq<byte>, atts: Attachments)
    requires text != [] && (IndexByte(text, LBRACE).Some? ==> !IsSite(text, atts, IndexByte(text, LBRACE).value))
    ensures var (parts, n) := FirstParts(text, atts);
            parts == [Literal(text[..n])] && forall k | 0 <= k < n :: !IsSite(text, atts, k)
  {
    var (parts, n) := FirstParts(text, atts);
    var open := IndexByte(text, LBRACE);
    assert text[..|text|] == text;
    if open.Some? {
      FirstIsOpen(text, open.value);
      forall k | 0 <= k < n
        ensures !IsSite(text, atts, k)
      {
        if IsOpen(text, k) {
          NotClosedYet(text, open.value, k, n);
          OnlyFirstOpen(text, atts, open.value, k);
        }
      }
    }
  }

  /** One iteration emits what the reader meets in the text it consumes. */
  lemma FirstReads(text: seq<byte>, atts: Attachments)
    requires text != []
    ensures SaysAll(FirstParts(text, atts).0) == Reading(text, atts, FirstParts(text, atts).1)
  {
    hide Letters, IndexByte, Reading, SaysAll;
    var (parts, n) := FirstParts(text, atts);
    var open := IndexByte(text, LBRACE);
    if open.Some? && IsSite(text, atts, open.value) {
      FirstSite(text, atts, open.value);
    } else {
      NoSite(text, atts);
      ReadPlain(text, atts, n);
      SaysOne(parts[0]);
    }
  }

  lemma ClosedBefore(text: seq<byte>, atts: Attachments, n: nat, j: nat)
    requires j < n <= |text| && text[n - 1] == RBRACE && IsSite(text, atts, j)
    ensures SiteEnd(text, atts, j) <= n
  {
    var rest := text[j + 1..];
    assert rest[n - 2 - j] == RBRACE;
    BeforeFirst(rest, RBRACE);
  }

  lemma SiteAfter(text: seq<byte>, atts: Attachments, n: nat, k: nat)
    requires 0 < n && n + k < |text| && text[n - 1] == RBRACE
    ensures IsSite(text, atts, n + k) <==> IsSite(text[n..], atts, k)
    ensures IsSite(text[n..], atts, k) ==> SiteEnd(text, atts, n + k) == n + SiteEnd(text[n..], atts, k)
  {
    hide IndexByte;
    var rest := text[n..];
    assert rest[k + 1..] == text[n + k + 1..];
    forall j | 0 <= j < k
      ensures rest[j..k] == text[n + j..n + k] && rest[j] == text[n + j]
    {
    }
    if IsOpen(rest, k) {
      forall j | 0 <= j < n + k && text[j] == LBRACE
        ensures RBRACE in text[j..n + k]
      {
        if n <= j {
          assert rest[j - n..k] == text[j..n + k];
        } else {
          assert text[j..n + k][n - 1 - j] == RBRACE;
        }
      }
    }
  }

  /** Past a closing brace that ends every placeholder before it, the text is read on its own. */
  lemma MarksAfter(text: seq<byte>, atts: Attachments, n: nat, i: nat)
    requires 0 < n && n + i < |text| && text[n - 1] == RBRACE
    ensures MarksAt(text, atts, n + i) == MarksAt(text[n..], atts, i)
  {
    hide Says, Resolved, IndexByte;
    var rest := text[n..];
    forall k | 0 <= k <= i
      ensures IsSite(text, atts, n + k) <==> IsSite(rest, atts, k)
      ensures IsSite(rest, atts, k) ==> SiteEnd(text, atts, n + k) == n + SiteEnd(rest, atts, k)
    {
      SiteAfter(text, atts, n, k);
    }
    if j :| 0 <= j < n + i && IsSite(text, atts, j) && n + i < SiteEnd(text, atts, j) {
      if j < n {
        ClosedBefore(text, atts, n, j);
      }
      assert IsSite(rest, atts, j - n);
    }
    if j :| 0 <= j < i && IsSite(rest, atts, j) && i < SiteEnd(rest, atts, j) {
      assert IsSite(text, atts, n + j);
    }
    assert rest[i + 1..] == text[n + i + 1..];
  }

  lemma {:induction false} ReadingSplit(text: seq<byte>, atts: Attachments, n: nat, m: nat)
    requires 0 < n && n + m <= |text| && (n == |text| || text[n - 1] == RBRACE)
    ensures Reading(text, atts, n + m) == Reading(text, atts, n) + Reading(text[n..], atts, m)
  {
    hide MarksAt;
    if m > 0 {
      ReadingSplit(text, atts, n, m - 1);
      MarksAfter(text, atts, n, m - 1);
      Assoc(Reading(text, atts, n), Reading(text[n..], atts, m - 1), MarksAt(text[n..], atts, m - 1));
    }
  }

  lemma ChunkEnds(text: seq<byte>, atts: Attachments)
    requires text != []
    ensures var n := FirstParts(text, atts).1; n == |text| || text[n - 1] == RBRACE
  {
  }

  lemma NothingRead(text: seq<byte>, atts: Attachments)
    ensures Reading(text, atts, 0) == []
  {
  }

  lemma {:induction false} ScanReads(text: seq<byte>, atts: Attachments)
    ensures SaysAll(Scan(text, atts)) == Reading(text, atts, |text|)
    decreases |text|
  {
    hide FirstParts, Reading;
    if text == [] {
      NothingRead(text, atts);
    } else {
      var (parts, n) := FirstParts(text, atts);
      FirstReads(text, atts);
      ScanReads(text[n..], atts);
      SaysAppend(parts, Scan(text[n..], atts));
      ChunkEnds(text, atts);
      ReadingSplit(text, atts, n, |text| - n);
    }
  }

  /**
   * The parts say what the prompt says: an attachment wherever a brace that no earlier brace waits before
   * is followed by a known name and a closing brace, and every other byte as it is.
   */
  lemma PartsRead(text: seq<byte>, atts: Attachments)
    ensures SaysAll(Parts(text, atts)) == Reading(text, atts, |text|)
  {
    if atts == map[] || text == [] {
      ReadPlain(text, atts, |text|);
      assert text[..|text|] == text;
      SaysOne(Literal(text));
    } else {
      ScanReads(text, atts);
    }
  }

  /**
   * An earlier brace without its closing one hides a placeholder, however well known the name: unless the
   * whole stretch from that brace on is a name itself, the prompt stays as it is.
   */
  lemma LoneBraceHides(atts: Attachments)
    ensures var text := Ascii("{ {b}");
            !IsSite(text, atts, 2) && (Ascii(" {b") !in atts ==> Parts(text, atts) == [Literal(text)])
  {
    var text := Ascii("{ {b}");
    assert text[0] == LBRACE && text[0..2] == [LBRACE, SPACE];
    var rest := text[1..];
    assert IndexByte(text, LBRACE) == Some(0) by {
      assert text[0] == LBRACE;
    }
    assert IndexByte(rest, RBRACE) == Some(3) by {
      assert rest[3] == RBRACE && rest[0] != RBRACE && rest[1] != RBRACE && rest[2] != RBRACE;
    }
    assert rest[..3] == Ascii(" {b");
    assert text[..5] == text;
  }

  // ----- which attachments a prompt names

  /** The names of the placeholders that were resolved, as `appendContentWithAttachments` collects them. */
  function Referenced(parts: seq<Part>): set<name> {
    set p | p in parts && p.ref != [] :: p.ref
  }

  lemma FirstPartsKnown(text: seq<byte>, atts: Attachments)
    requires text != []
    ensures forall p | p in FirstParts(text, atts).0 :: p.ref == [] || p.ref in atts
  {
  }

  lemma {:induction false} ScanKnown(text: seq<byte>, atts: Attachments)
    ensures forall p | p in Scan(text, atts) :: p.ref == [] || p.ref in atts
    decreases |text|
  {
    if text != [] {
      FirstPartsKnown(text, atts);
      ScanKnown(text[FirstParts(text, atts).1..], atts);
    }
  }

  /** Only attachments are ever referenced. */
  lemma ReferencedKnown(text: seq<byte>, atts: Attachments)
    ensures Referenced(Parts(text, atts)) <= atts.Keys
  {
    ScanKnown(text, atts);
  }

  /** Attachments that no placeholder of the prompt named. */
  function Unreferenced(text: seq<byte>, atts: Attachments): set<name> {
    atts.Keys - Referenced(Parts(text, atts))
  }

  /** The name of the first placeholder, when it is one that is resolved. */
  function FirstName(text: seq<byte>, atts: Attachments): set<name> {
    var open := IndexByte(text, LBRACE);
    if open.None? then {}
    else
      var rest := text[open.value + 1..];
      var close := IndexByte(rest, RBRACE);
      if close.Some? && rest[..close.value] in atts then {rest[..close.value]} else {}
  }

  /** The names whose placeholders are resolved anywhere in the prompt, the empty name included. */
  function ResolvedNames(text: seq<byte>, atts: Attachments): (names: set<name>)
    ensures names <= atts.Keys
    decreases |text|
  {
    if text == [] then {}
    else FirstName(text, atts) + ResolvedNames(text[FirstParts(text, atts).1..], atts)
  }

  lemma FirstPartsNames(text: seq<byte>, atts: Attachments)
    requires text != []
    ensures Referenced(FirstParts(text, atts).0) == FirstName(text, atts) - {[]}
  {
    var parts := FirstParts(text, atts).0;
    var last := parts[|parts| - 1];
    assert last in parts;
    assert forall p | p in parts :: p == last || p.ref == [];
    assert FirstName(text, atts) - {[]} == if last.ref == [] then {} else {last.ref};
  }

  lemma ReferencedConcat(a: seq<Part>, b: seq<Part>)
    ensures Referenced(a + b) == Referenced(a) + Referenced(b)
  {
    assert forall p :: p in a + b <==> p in a || p in b;
  }

  lemma {:induction false} ScanNames(text: seq<byte>, atts: Attachments)
    ensures Referenced(Scan(text, atts)) == ResolvedNames(text, atts) - {[]}
    decreases |text|
  {
    if text != [] {
      var rest := text[FirstParts(text, atts).1..];
      FirstPartsNames(text, atts);
      ScanNames(rest, atts);
      ReferencedConcat(FirstParts(text, atts).0, Scan(rest, atts));
    }
  }

  /** No attachment is shown at its placeholder and again with the unreferenced ones. */
  predicate ShownOnce(text: seq<byte>, atts: Attachments) {
    ResolvedNames(text, atts) !! Unreferenced(text, atts)
  }

  /** That holds for every prompt exactly when no attachment has the empty name. */
  lemma ShownOnceIff(atts: Attachments)
    ensures (forall text :: ShownOnce(text, atts)) <==> [] !in atts
  {
    if [] in atts {
      var text := [LBRACE, RBRACE];
      EmptyPlaceholder(atts);
      assert IndexByte(text, LBRACE) == Some(0);
      assert text[1..] == [RBRACE] && IndexByte([RBRACE], RBRACE) == Some(0);
      assert [RBRACE][..0] == [];
      assert [] in ResolvedNames(text, atts) && [] in Unreferenced(text, atts);
      assert !ShownOnce(text, atts);
    } else {
      forall text
        ensures ShownOnce(text, atts)
      {
        ScanNames(text, atts);
      }
    }
  }
}
