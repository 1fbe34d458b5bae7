/**
 What the parser makes of whole messages: the pieces they arrive in do not matter, header lines are recorded
 as they were sent, and decoding a chunked body (section 7.1 of RFC 9112) gives back what was encoded.
 */
module HttpRuns {
  import opened HttpMessage
  import opened HttpParser

  // ---------- pieces ----------

  lemma {:induction false} FeedStopped(v: Fsm, a: seq<Byte>)
    requires Coherent(v) && Stopped(v)
    ensures Feed(v, a) == v
  {
  }

  lemma {:induction false} WebSocketStays(v: Fsm, a: seq<Byte>, n: nat)
    requires Coherent(v) && n <= |a| && Feed(v, a[..n]).phase.WebSocket?
    ensures Feed(v, a).phase.WebSocket?
    decreases |a|
  {
    if v.phase.WebSocket? || n == 0 {
      assert a[..0] == [];
    } else if !Stopped(v) {
      assert a[..n][1..] == a[1..][..n - 1];
      WebSocketStays(Take(v, a[0]), a[1..], n - 1);
    }
  }

  /** Exactly when a cut does not matter: feeding `a` and then `b` is feeding both at once, unless a websocket
      was established before the last byte of `a`. */
  lemma {:induction false} CutExactly(v: Fsm, a: seq<Byte>, b: seq<Byte>)
    requires Coherent(v) && a != [] && b != []
    ensures Feed(Feed(v, a), b) == Feed(v, a + b) <==> !Feed(v, a[..|a| - 1]).phase.WebSocket?
    decreases |a|
  {
    assert (a + b)[0] == a[0] && (a + b)[1..] == a[1..] + b;
    if Stopped(v) {
      FeedStopped(v, a);
      FeedStopped(v, b);
    } else if v.phase.WebSocket? {
      WebSocketStays(v, a[..|a| - 1], 0);
      assert a[..|a| - 1][..0] == [];
      assert Feed(v, a) == Feed(v, a + b) == Put(v, a[0]);
      assert Feed(Feed(v, a), b).len == Feed(v, a).len + 1;
    } else if |a| == 1 {
      assert a[1..] == [] && a[..0] == [] && [] + b == b;
    } else {
      assert a[..|a| - 1][1..] == a[1..][..|a[1..]| - 1];
      CutExactly(Take(v, a[0]), a[1..], b);
    }
  }

  lemma FeedConcat(v: Fsm, a: seq<Byte>, b: seq<Byte>)
    requires Coherent(v) && !Feed(v, a).phase.WebSocket?
    ensures Feed(v, a + b) == Feed(Feed(v, a), b)
  {
    if a == [] {
      assert a + b == b;
    } else if b == [] {
      assert a + b == a;
    } else {
      if Feed(v, a[..|a| - 1]).phase.WebSocket? { WebSocketStays(v, a, |a| - 1); }
      CutExactly(v, a, b);
    }
  }

  function Flatten(pieces: seq<seq<Byte>>): seq<Byte> {
    if pieces == [] then [] else pieces[0] + Flatten(pieces[1..])
  }

  /** The code reads a byte of each piece before it looks at its length. */
  predicate NonEmpty(pieces: seq<seq<Byte>>) {
    forall i :: 0 <= i < |pieces| ==> pieces[i] != []
  }

  /** A message that does not upgrade gives the same state, headers and body however it is cut in pieces. */
  lemma {:induction false} PiecesDoNotMatter(v: Fsm, pieces: seq<seq<Byte>>)
    requires NonEmpty(pieces)
    requires Coherent(v) && !Feed(v, Flatten(pieces)).phase.WebSocket?
    ensures FeedAll(v, pieces) == Feed(v, Flatten(pieces))
    decreases |pieces|
  {
    if pieces != [] {
      var a, rest := pieces[0], Flatten(pieces[1..]);
      if Feed(v, a).phase.WebSocket? {
        assert (a + rest)[..|a|] == a;
        WebSocketStays(v, a + rest, |a|);
      }
      FeedConcat(v, a, rest);
      PiecesDoNotMatter(Feed(v, a), pieces[1..]);
    }
  }

  // ---------- bytes of a line ----------

  predicate NoByte(text: seq<Byte>, b: Byte) {
    forall i :: 0 <= i < |text| ==> text[i] != b
  }

  /** `w` is `v` with `text` received and only stored. */
  ghost predicate Stored(v: Fsm, w: Fsm, text: seq<Byte>)
    requires Coherent(v)
  {
    && Coherent(w) && w == v.(mem := w.mem, len := w.len) && w.len == v.len + |text|
    && w.mem[..v.len] == v.mem[..v.len] && w.mem[v.len..w.len] == text
  }

  lemma PutStores(v: Fsm, c: Byte)
    requires Coherent(v)
    ensures Stored(v, Put(v, c), [c])
  {
    var w := Put(v, c);
    assert w.mem[..v.len] == v.mem[..v.len];
    assert w.mem[v.len..w.len] == [c];
  }

  lemma StoredTrans(u: Fsm, v: Fsm, w: Fsm, a: seq<Byte>, b: seq<Byte>)
    requires Coherent(u) && Stored(u, v, a) && Stored(v, w, b)
    ensures Stored(u, w, a + b)
  {
    assert w.mem[..u.len] == w.mem[..v.len][..u.len];
    assert w.mem[u.len..w.len] == w.mem[..v.len][u.len..] + w.mem[v.len..w.len];
    assert v.mem[..v.len][u.len..] == v.mem[u.len..v.len];
  }

  predicate LinePhase(p: Phase) {
    p.Header? || p.Footer? || p.Bodylen?
  }

  lemma PlainByte(v: Fsm, c: Byte)
    requires Coherent(v) && LinePhase(v.phase) && c != LF
    ensures Take(v, c) == Put(v, c)
  {
    assert RecvLf(Put(v, c).mem, v.len + 1) == 0;
  }

  /** Bytes other than LF are only stored, in the phases that read lines. */
  lemma {:induction false} TextOfLine(v: Fsm, text: seq<Byte>)
    requires Coherent(v) && LinePhase(v.phase) && NoByte(text, LF)
    ensures Stored(v, Feed(v, text), text)
    decreases |text|
  {
    if text == [] {
      assert v.mem[v.len..v.len] == [];
    } else {
      PutStores(v, text[0]);
      PlainByte(v, text[0]);
      var w := Put(v, text[0]);
      TextOfLine(w, text[1..]);
      StoredTrans(v, w, Feed(w, text[1..]), [text[0]], text[1..]);
      assert [text[0]] + text[1..] == text;
    }
  }

  /** A text with its line terminator. */
  function Terminated(text: seq<Byte>): seq<Byte> {
    text + [CR] + [LF]
  }

  lemma LastStored(v: Fsm, w: Fsm, text: seq<Byte>)
    requires Coherent(v) && Stored(v, w, text)
    ensures 1 <= |text| ==> w.mem[w.len - 1] == text[|text| - 1]
    ensures 2 <= |text| ==> w.mem[w.len - 2] == text[|text| - 2]
  {
    var line := w.mem[v.len..w.len];
    if 1 <= |text| { assert line[|text| - 1] == w.mem[w.len - 1]; }
    if 2 <= |text| { assert line[|text| - 2] == w.mem[w.len - 2]; }
  }

  /** A line with CR LF at its end, as it stands in the buffer once both have been stored. */
  lemma LineStored(v: Fsm, text: seq<Byte>)
    requires Coherent(v) && LinePhase(v.phase) && NoByte(text, LF)
    ensures Stored(v, Feed(v, text + [CR]), text + [CR])
    ensures Stored(v, Put(Feed(v, text + [CR]), LF), Terminated(text))
  {
    TextOfLine(v, text + [CR]);
    var u := Feed(v, text + [CR]);
    PutStores(u, LF);
    StoredTrans(v, u, Put(u, LF), text + [CR], [LF]);
  }

  lemma LineEnds(v: Fsm, w: Fsm, text: seq<Byte>)
    requires Coherent(v) && Stored(v, w, Terminated(text)) && 0 < v.len + |text|
    ensures RecvLf(w.mem, w.len) == 2
  {
    LastStored(v, w, Terminated(text));
  }

  /** Feeding a whole line is storing it and then running the handler at the LF. */
  lemma LineFed(v: Fsm, text: seq<Byte>)
    requires Coherent(v) && LinePhase(v.phase) && NoByte(text, LF)
    ensures Feed(v, Terminated(text)) == Take(Feed(v, text + [CR]), LF)
    ensures Feed(v, text + [CR]).phase == v.phase
  {
    LineStored(v, text);
    var u := Feed(v, text + [CR]);
    FeedConcat(v, text + [CR], [LF]);
    OneByte(u, LF);
  }

  lemma OneByte(u: Fsm, c: Byte)
    requires Coherent(u) && !Stopped(u) && !u.phase.WebSocket?
    ensures Feed(u, [c]) == Take(u, c)
  {
    assert Feed(u, [c]) == Feed(Take(u, c), [c][1..]);
  }

  // ---------- header and trailer lines ----------

  predicate GoodLine(text: seq<Byte>) {
    text != [] && |text| < UINT16 && NoByte(text, LF) && NoByte(text, 0)
  }

  predicate AtLineStart(v: Fsm) {
    Coherent(v) && v.line == v.len
  }

  /** A non-empty line is recorded where it stands and as long as it is; with 64 recorded already it is an
      error. */
  lemma OneLine(v: Fsm, text: seq<Byte>)
    requires AtLineStart(v) && (v.phase.Header? || v.phase.Footer?) && GoodLine(text)
    ensures var w := Feed(v, Terminated(text));
      if |v.hd| < MAX_HEADER then
        && AtLineStart(w) && w.len == v.len + |text| + 2
        && w == v.(mem := w.mem, len := w.len, line := w.len, hd := v.hd + [Slice(v.len, |text|)])
        && w.mem[..v.len] == v.mem[..v.len] && TextAt(w.mem, v.len) == text
      else w.phase == Error
  {
    var u := Put(Feed(v, text + [CR]), LF);
    LineStored(v, text);
    LineRecorded(v, text);
    BlankedLine(v, u, text);
  }

  /** The handler of a line phase. */
  function RecvLine(u: Fsm): Fsm
    requires Coherent(u) && (u.phase.Header? || u.phase.Footer?)
  {
    if u.phase.Header? then RecvHeader(u) else RecvFooter(u)
  }

  /** What recording a line of `size` bytes makes of the state. */
  function Recorded(u: Fsm, mem: seq<Byte>, size: nat): Fsm {
    if |u.hd| < MAX_HEADER then u.(mem := mem, line := u.len, hd := u.hd + [Slice(u.line, size)])
    else u.(mem := mem, phase := Error)
  }

  lemma RecvNonEmptyLine(u: Fsm, size: nat)
    requires Coherent(u) && (u.phase.Header? || u.phase.Footer?)
    requires RecvLf(u.mem, u.len) == 2 && u.len == u.line + size + 2 && 0 < size < UINT16
    ensures RecvLine(u) == Recorded(u, Blank(u.mem, u.len, 2), size)
  {
    assert (u.len - u.line - 2) % UINT16 == size;
  }

  lemma TakeIsRecvLine(v: Fsm, c: Byte)
    requires Coherent(v) && (v.phase.Header? || v.phase.Footer?)
    ensures Take(v, c) == RecvLine(Put(v, c))
  {
  }

  lemma LineRecorded(v: Fsm, text: seq<Byte>)
    requires AtLineStart(v) && (v.phase.Header? || v.phase.Footer?) && GoodLine(text)
    ensures Coherent(Feed(v, text + [CR]))
    ensures var u := Put(Feed(v, text + [CR]), LF);
      u.len == v.len + |text| + 2 && Feed(v, Terminated(text)) == Recorded(u, Blank(u.mem, u.len, 2), |text|)
  {
    LineStored(v, text);
    LineFed(v, text);
    var w := Feed(v, text + [CR]);
    var u := Put(w, LF);
    LineEnds(v, u, text);
    TakeIsRecvLine(w, LF);
    RecvNonEmptyLine(u, |text|);
  }

  lemma BlankedLine(v: Fsm, u: Fsm, text: seq<Byte>)
    requires Coherent(v) && Stored(v, u, Terminated(text)) && NoByte(text, 0)
    ensures var mem := Blank(u.mem, u.len, 2);
      |mem| == |u.mem| && mem[..v.len] == v.mem[..v.len] && TextAt(mem, v.len) == text
  {
    var mem := Blank(u.mem, u.len, 2);
    assert mem[..v.len] == u.mem[..v.len];
    var line := u.mem[v.len..u.len];
    forall j | v.len <= j < v.len + |text| ensures mem[j] == text[j - v.len] {
      assert line[j - v.len] == u.mem[j];
    }
    TextEnds(mem, v.len, |text|);
    assert mem[v.len..v.len + |text|] == text;
  }

  function Lines(texts: seq<seq<Byte>>): seq<Byte> {
    if texts == [] then [] else Terminated(texts[0]) + Lines(texts[1..])
  }

  /** Where the lines start when the first one starts at `at`. */
  function Slices(texts: seq<seq<Byte>>, at: nat): seq<Slice> {
    if texts == [] then [] else [Slice(at, |texts[0]|)] + Slices(texts[1..], at + |texts[0]| + 2)
  }

  /** Text inside the part of the buffer that two buffers share, with its terminator, is the same. */
  lemma {:induction false} SameText(mem: seq<Byte>, mem': seq<Byte>, i: nat, n: nat)
    requires n <= |mem| && n <= |mem'| && mem[..n] == mem'[..n] && i + |TextAt(mem, i)| < n
    ensures TextAt(mem', i) == TextAt(mem, i)
    decreases |mem| - i
  {
    assert mem[i] == mem[..n][i] == mem'[..n][i] == mem'[i];
    if mem[i] != 0 { SameText(mem, mem', i + 1, n); }
  }

  /** `w` is `v` after a block of lines: each recorded slice reads back as its line, and nothing before the
      block has changed. */
  ghost predicate AfterLines(v: Fsm, w: Fsm, texts: seq<seq<Byte>>) {
    && AtLineStart(v) && AtLineStart(w)
    && w == v.(mem := w.mem, len := w.len, line := w.len, hd := v.hd + Slices(texts, v.len))
    && v.len <= w.len && w.mem[..v.len] == v.mem[..v.len]
    && (texts != [] ==> v.len < w.len)
    && Readable(w.mem, w.len, Slices(texts, v.len), texts)
  }

  lemma {:induction false} ManyLines(v: Fsm, texts: seq<seq<Byte>>)
    requires AtLineStart(v) && (v.phase.Header? || v.phase.Footer?)
    requires forall i :: 0 <= i < |texts| ==> GoodLine(texts[i])
    requires |v.hd| + |texts| <= MAX_HEADER
    ensures AfterLines(v, Feed(v, Lines(texts)), texts)
    decreases |texts|
  {
    if texts == [] {
      assert v.hd + [] == v.hd;
    } else {
      OneLine(v, texts[0]);
      var u := Feed(v, Terminated(texts[0]));
      FeedConcat(v, Terminated(texts[0]), Lines(texts[1..]));
      ManyLines(u, texts[1..]);
      MoreLines(v, u, Feed(u, Lines(texts[1..])), texts);
    }
  }

  lemma MoreLines(v: Fsm, u: Fsm, w: Fsm, texts: seq<seq<Byte>>)
    requires texts != [] && AtLineStart(v) && AtLineStart(u) && u.len == v.len + |texts[0]| + 2
    requires u == v.(mem := u.mem, len := u.len, line := u.len, hd := v.hd + [Slice(v.len, |texts[0]|)])
    requires u.mem[..v.len] == v.mem[..v.len] && TextAt(u.mem, v.len) == texts[0]
    requires AfterLines(u, w, texts[1..])
    ensures AfterLines(v, w, texts)
  {
    assert v.hd + [Slice(v.len, |texts[0]|)] + Slices(texts[1..], u.len) == v.hd + Slices(texts, v.len);
    assert w.mem[..v.len] == w.mem[..u.len][..v.len];
    assert u.mem[..u.len][..v.len] == u.mem[..v.len];
    FirstLineReadable(u, w, v.len, texts);
  }

  /** The slices lie below `end` and read back as the lines. */
  ghost predicate Readable(mem: seq<Byte>, end: nat, slices: seq<Slice>, texts: seq<seq<Byte>>) {
    && |slices| == |texts| && end <= |mem|
    && forall i :: 0 <= i < |texts| ==>
         TextAt(mem, slices[i].at) == texts[i] && slices[i].size == |texts[i]| && slices[i].at + |texts[i]| < end
  }

  lemma FirstLineReadable(u: Fsm, w: Fsm, at: nat, texts: seq<seq<Byte>>)
    requires texts != [] && u.len == at + |texts[0]| + 2 && u.len <= |u.mem| && u.len <= w.len < |w.mem|
    requires w.mem[..u.len] == u.mem[..u.len] && TextAt(u.mem, at) == texts[0]
    requires Readable(w.mem, w.len, Slices(texts[1..], u.len), texts[1..])
    ensures Readable(w.mem, w.len, Slices(texts, at), texts)
  {
    SameText(u.mem, w.mem, at, u.len);
    var rest := Slices(texts[1..], u.len);
    forall i | 0 <= i < |texts|
      ensures TextAt(w.mem, Slices(texts, at)[i].at) == texts[i] && Slices(texts, at)[i].size == |texts[i]|
           && Slices(texts, at)[i].at + |texts[i]| < w.len
    {
      if i > 0 { assert Slices(texts, at)[i] == rest[i - 1] && texts[1..][i - 1] == texts[i]; }
    }
  }

  /** The 65th line is refused. */
  lemma TooManyLines(v: Fsm, texts: seq<seq<Byte>>)
    requires AtLineStart(v) && (v.phase.Header? || v.phase.Footer?)
    requires forall i :: 0 <= i < |texts| ==> GoodLine(texts[i])
    requires |v.hd| + |texts| > MAX_HEADER && |v.hd| <= MAX_HEADER
    ensures Feed(v, Lines(texts)).phase == Error
  {
    var k := MAX_HEADER - |v.hd|;
    ManyLines(v, texts[..k]);
    SplitLines(texts, k);
    var w := Feed(v, Lines(texts[..k]));
    SliceCount(texts[..k], v.len);
    FeedConcat(v, Lines(texts[..k]), Lines(texts[k..]));
    OneLine(w, texts[k]);
    var x := Feed(w, Terminated(texts[k]));
    FeedConcat(w, Terminated(texts[k]), Lines(texts[k..][1..]));
    FeedStopped(x, Lines(texts[k..][1..]));
  }

  lemma {:induction false} SliceCount(texts: seq<seq<Byte>>, at: nat)
    ensures |Slices(texts, at)| == |texts|
  {
    if texts != [] { SliceCount(texts[1..], at + |texts[0]| + 2); }
  }

  lemma {:induction false} SplitLines(texts: seq<seq<Byte>>, k: nat)
    requires k <= |texts|
    ensures Lines(texts) == Lines(texts[..k]) + Lines(texts[k..])
  {
    if k > 0 {
      assert texts[..k][1..] == texts[1..][..k - 1] && texts[k..] == texts[1..][k - 1..];
      SplitLines(texts[1..], k - 1);
    } else {
      assert texts[..0] == [] && texts[0..] == texts;
    }
  }

  lemma RecvEmptyLine(u: Fsm)
    requires Coherent(u) && (u.phase.Header? || u.phase.Footer?)
    requires RecvLf(u.mem, u.len) == 2 && u.len == u.line + 2
    ensures var w := u.(mem := Blank(u.mem, u.len, 2));
      RecvLine(u) == if u.phase.Header? then Dispatch(w) else w.(phase := Finish)
  {
  }

  /** The buffer after an empty line. */
  function PastEmptyLine(v: Fsm): (r: Fsm)
    requires AtLineStart(v)
    ensures Coherent(r) && r.len == v.len + 2
  {
    var u := Put(Put(v, CR), LF);
    u.(mem := Blank(u.mem, u.len, 2))
  }

  /** The empty line: end of the header block, or of the trailer and with it of the message. */
  lemma EmptyLine(v: Fsm)
    requires AtLineStart(v) && (v.phase.Header? || v.phase.Footer?) && 0 < v.len
    ensures PastEmptyLine(v).mem[..v.len] == v.mem[..v.len]
    ensures Feed(v, Terminated([])) ==
            if v.phase.Header? then Dispatch(PastEmptyLine(v)) else PastEmptyLine(v).(phase := Finish)
  {
    var w := Put(v, CR);
    PlainByte(v, CR);
    OneByte(v, CR);
    assert [] + [CR] == [CR];
    LineStored(v, []);
    LineFed(v, []);
    var u := Put(w, LF);
    LineEnds(v, u, []);
    BlankedLine(v, u, []);
    TakeIsRecvLine(w, LF);
    RecvEmptyLine(u);
  }
}
