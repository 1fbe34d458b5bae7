/**
 What the parser reads off the first line of a reply: for every line, the version and the status it stores.
 A status line is five bytes, a version, one byte, spaces, the status word, and anything behind another space.
 */
module HttpStatus {
  import opened Options
  import opened HttpMessage
  import opened HttpNumbers
  import opened HttpParser
  import opened HttpRuns
  import opened HttpWhole

  const SPACE: Byte := ' ' as int

  function Spaces(n: nat): (r: seq<Byte>)
    ensures |r| == n && forall i :: 0 <= i < n ==> r[i] == SPACE
  {
    seq(n, _ => SPACE)
  }

  datatype StatusLine = StatusLine(lead: seq<Byte>, minor: Byte, mark: Byte, gap: nat, word: seq<Byte>, rest: seq<Byte>)

  function LineOf(l: StatusLine): seq<Byte> {
    l.lead + ['1' as int, '.' as int, l.minor, l.mark] + Spaces(l.gap) + l.word + l.rest
  }

  /** The status word ends at a space or at the end of the line. */
  predicate GoodStatusLine(l: StatusLine) {
    && |l.lead| == 5 && l.minor in {'0' as int, '1' as int} && SPACE !in l.word
    && (l.rest == [] || (l.rest[0] == SPACE && l.word != []))
  }

  /** The number in a status word; HRC_ERROR if it is none or does not fit the buffer. */
  function StatusOf(word: seq<Byte>): int {
    var n := ParseDigits(word);
    if |word| >= TOKEN_SIZE || n.None? then HRC_ERROR else n.value
  }

  // ---------- text and memory ----------

  /** The bytes of the text at `i` stand there one by one, and a 0 follows. */
  lemma {:induction false} TextBytes(mem: seq<Byte>, i: nat)
    ensures var t := TextAt(mem, i);
      && i + |t| <= |mem| + i && (t != [] ==> i + |t| <= |mem|)
      && (forall k :: 0 <= k < |t| ==> mem[i + k] == t[k] != 0) && At(mem, i + |t|) == 0
    decreases |mem| - i
  {
    var t := TextAt(mem, i);
    if t != [] {
      TextBytes(mem, i + 1);
      assert t[1..] == TextAt(mem, i + 1);
      forall k | 0 <= k < |t| ensures mem[i + k] == t[k] != 0 {
        if k > 0 { assert t[k] == t[1..][k - 1] == mem[i + 1 + (k - 1)]; }
      }
    }
  }

  lemma {:induction false} BlanksAre(mem: seq<Byte>, w: nat, n: nat)
    requires w + n <= |mem| && (forall k :: w <= k < w + n ==> mem[k] == SPACE) && At(mem, w + n) != SPACE
    ensures Blanks(mem, w) == n
    decreases n
  {
    if n > 0 { BlanksAre(mem, w + 1, n - 1); }
  }

  lemma {:induction false} WordIs(mem: seq<Byte>, w: nat, word: seq<Byte>)
    requires w + |word| <= |mem| && (forall k :: 0 <= k < |word| ==> mem[w + k] == word[k] && word[k] != 0 && word[k] != SPACE)
    requires At(mem, w + |word|) in {0, SPACE}
    ensures WordAt(mem, w) == word
    decreases |word|
  {
    if word == [] {
      assert At(mem, w) == 0 || At(mem, w) == SPACE;
    } else {
      assert mem[w + 0] == word[0];
      assert forall k :: 0 <= k < |word| - 1 ==> word[1..][k] == word[k + 1] && mem[w + 1 + k] == mem[w + (k + 1)];
      WordIs(mem, w + 1, word[1..]);
    }
  }

  /** The parts of a status line, byte by byte. */
  lemma LineParts(l: StatusLine)
    requires GoodStatusLine(l)
    ensures var t := LineOf(l);
      && |t| == 9 + l.gap + |l.word| + |l.rest|
      && t[5] == '1' as int && t[6] == '.' as int && t[7] == l.minor && t[8] == l.mark
      && (forall k :: 9 <= k < 9 + l.gap ==> t[k] == SPACE)
      && (forall k :: 0 <= k < |l.word| ==> t[9 + l.gap + k] == l.word[k])
      && (l.rest != [] ==> t[9 + l.gap + |l.word|] == SPACE)
  {
    var head := l.lead + ['1' as int, '.' as int, l.minor, l.mark];
    var t := LineOf(l);
    assert t == head + (Spaces(l.gap) + l.word + l.rest);
    assert forall k :: 0 <= k < 9 ==> t[k] == head[k];
    assert forall k :: 0 <= k < l.gap ==> t[9 + k] == Spaces(l.gap)[k];
    forall k | 9 <= k < 9 + l.gap ensures t[k] == SPACE { assert t[9 + (k - 9)] == Spaces(l.gap)[k - 9]; }
  }

  lemma MarkAt(mem: seq<Byte>, s: nat, l: StatusLine)
    requires GoodStatusLine(l) && TextAt(mem, s) == LineOf(l)
    ensures At(mem, s + 8) != 0 && VersionAt(mem, s + 5) == Some(if l.minor == '1' as int then 11 else 10)
    ensures forall k :: s + 9 <= k < s + 9 + l.gap ==> k < |mem| && mem[k] == SPACE
  {
    TextBytes(mem, s);
    LineParts(l);
    forall k | s + 9 <= k < s + 9 + l.gap ensures k < |mem| && mem[k] == SPACE {
      assert mem[s + (k - s)] == LineOf(l)[k - s];
    }
  }

  lemma WordStands(mem: seq<Byte>, s: nat, l: StatusLine)
    requires GoodStatusLine(l) && TextAt(mem, s) == LineOf(l)
    ensures WordAt(mem, s + 9 + l.gap) == l.word && At(mem, s + 9 + l.gap) != SPACE
    ensures s + 9 + l.gap <= |mem|
  {
    TextBytes(mem, s);
    LineParts(l);
    var w, t := s + 9 + l.gap, LineOf(l);
    forall k | 0 <= k < |l.word| ensures mem[w + k] == l.word[k] && l.word[k] != 0 && l.word[k] != SPACE {
      assert mem[s + (9 + l.gap + k)] == t[9 + l.gap + k];
    }
    var e := 9 + l.gap + |l.word|;
    if l.rest != [] { assert mem[s + e] == t[e]; }
    WordIs(mem, w, l.word);
  }

  // ---------- what is read ----------

  /** A status line gives its version and the number in its status word, whatever its bytes and spaces. */
  lemma StatusRead(mem: seq<Byte>, first: Slice, l: StatusLine)
    requires GoodStatusLine(l) && TextAt(mem, first.at) == LineOf(l) && |LineOf(l)| <= first.size
    ensures VersionAt(mem, first.at + 5) == Some(if l.minor == '1' as int then 11 else 10)
    ensures StatusCode(mem, first) == StatusOf(l.word)
    ensures forall n :: |l.word| < TOKEN_SIZE && NumberIn(l.word, n) ==> StatusCode(mem, first) == n
  {
    forall n | NumberIn(l.word, n) ensures ParseDigits(l.word) == Some(n) { AtoiExactly(l.word, n); }
    MarkAt(mem, first.at, l);
    WordStands(mem, first.at, l);
    BlanksAre(mem, first.at + 9, l.gap);
    LineLength(l);
    CodeOf(mem, first, first.at + 9 + l.gap, l.word);
  }

  lemma LineLength(l: StatusLine)
    requires GoodStatusLine(l)
    ensures 9 + l.gap + |l.word| <= |LineOf(l)|
  {
    LineParts(l);
  }

  lemma CodeOf(mem: seq<Byte>, first: Slice, w: nat, word: seq<Byte>)
    requires VersionAt(mem, first.at + 5).Some? && StatusWordAt(mem, first.at) == w && WordAt(mem, w) == word
    requires w + |word| <= first.at + first.size
    ensures StatusCode(mem, first) == StatusOf(word)
  {
    if word == [] { assert ParseDigits([]) == Some(0); }
  }

  /** A line that has no such version has no status. */
  lemma NoVersion(mem: seq<Byte>, first: Slice, text: seq<Byte>)
    requires TextAt(mem, first.at) == text && |text| >= 5
    requires |text| < 8 || text[5] != '1' as int || text[6] != '.' as int || text[7] !in {'0' as int, '1' as int}
    ensures VersionAt(mem, first.at + 5) == None && StatusCode(mem, first) == HRC_ERROR
  {
    TextBytes(mem, first.at);
  }

  /** One that ends at the version has status 0. */
  lemma VersionOnly(mem: seq<Byte>, first: Slice, text: seq<Byte>)
    requires TextAt(mem, first.at) == text && |text| == 8
    requires text[5] == '1' as int && text[6] == '.' as int && text[7] in {'0' as int, '1' as int}
    ensures StatusCode(mem, first) == 0
  {
    TextBytes(mem, first.at);
    assert WordAt(mem, first.at + 8) == [];
  }

  /** A line of fewer than five bytes is read beyond its end; but its length limits what is found there, so the
      status is still HRC_ERROR or 0. */
  lemma ShortLine(mem: seq<Byte>, first: Slice)
    requires first.size < 5
    ensures StatusCode(mem, first) in {HRC_ERROR, 0}
  {
    var w := StatusWordAt(mem, first.at);
    if WordAt(mem, w) == [] { assert ParseDigits([]) == Some(0); }
  }

  /** Every line of at least nine bytes with a version is a status line. */
  lemma {:induction false} SplitWord(text: seq<Byte>) returns (gap: nat, word: seq<Byte>, rest: seq<Byte>)
    ensures text == Spaces(gap) + word + rest && SPACE !in word
    ensures rest == [] || (rest[0] == SPACE && word != [])
    decreases |text|
  {
    if text == [] {
      gap, word, rest := 0, [], [];
    } else if text[0] == SPACE {
      gap, word, rest := SplitWord(text[1..]);
      assert [SPACE] + Spaces(gap) == Spaces(gap + 1);
      assert text == [text[0]] + text[1..] == Spaces(gap + 1) + word + rest;
      gap := gap + 1;
    } else {
      gap, word, rest := SplitAtSpace(text);
    }
  }

  lemma {:induction false} SplitAtSpace(text: seq<Byte>) returns (gap: nat, word: seq<Byte>, rest: seq<Byte>)
    requires text != [] && text[0] != SPACE
    ensures gap == 0 && text == Spaces(gap) + word + rest && SPACE !in word && word != []
    ensures rest == [] || rest[0] == SPACE
    decreases |text|
  {
    gap := 0;
    if |text| == 1 || text[1] == SPACE {
      word, rest := text[..1], text[1..];
    } else {
      var g;
      g, word, rest := SplitAtSpace(text[1..]);
      word := [text[0]] + word;
    }
    assert text == word + rest;
  }

  lemma EveryLineSplits(text: seq<Byte>) returns (l: StatusLine)
    requires |text| >= 9 && text[5] == '1' as int && text[6] == '.' as int && text[7] in {'0' as int, '1' as int}
    ensures GoodStatusLine(l) && LineOf(l) == text
  {
    var gap, word, rest := SplitWord(text[9..]);
    l := StatusLine(text[..5], text[7], text[8], gap, word, rest);
    assert text == text[..5] + text[5..9] + text[9..];
    assert text[5..9] == ['1' as int, '.' as int, text[7], text[8]];
  }

  // ---------- from the first byte of a reply ----------

  /** Where the first line of a reply stands when the header block ends. */
  lemma FirstLine(texts: seq<seq<Byte>>) returns (v: Fsm)
    requires GoodLines(texts)
    ensures v.hd != [] && TextAt(v.mem, v.hd[0].at) == texts[0] && v.hd[0].size == |texts[0]|
    ensures Feed(Start, Head(texts)) == Dispatch(v) && Readable(v.mem, v.len, v.hd, texts)
  {
    HeadRead(texts);
    v := PastEmptyLine(Feed(Start, Lines(texts)));
  }

  lemma StatusKept(v: Fsm, code: int)
    requires v.hd != [] && StatusCode(v.mem, v.hd[0]) == code
    ensures WithStatus(v).rc == Signed16(code) && Dispatch(v).rc == Signed16(code)
  {
  }

  lemma NoBodyPhase(v: Fsm)
    requires v.hd != [] && KindOf(Texts(v.mem, v.hd), v.hd) == NoBody
    ensures Dispatch(v).phase == if Dispatch(v).rc == HRC_OK then Error else Finish
  {
  }

  lemma CutIsOk(n: int)
    ensures Signed16(n) == HRC_OK <==> n % UINT16 == HRC_OK
  {
  }

  /** The first line of a reply decides what its version and status are, cut to 16 bits. */
  lemma ReplyStatus(texts: seq<seq<Byte>>, l: StatusLine)
    requires GoodLines(texts) && GoodStatusLine(l) && texts[0] == LineOf(l)
    ensures var v := Feed(Start, Head(texts));
      v.rc == Signed16(StatusOf(l.word)) && v.version == if l.minor == '1' as int then 11 else 10
  {
    var v := FirstLine(texts);
    DispatchStatus(v, l);
  }

  lemma DispatchStatus(v: Fsm, l: StatusLine)
    requires v.hd != [] && GoodStatusLine(l) && TextAt(v.mem, v.hd[0].at) == LineOf(l) && v.hd[0].size == |LineOf(l)|
    ensures Dispatch(v).rc == Signed16(StatusOf(l.word))
    ensures Dispatch(v).version == if l.minor == '1' as int then 11 else 10
  {
    StatusRead(v.mem, v.hd[0], l);
    StatusKept(v, StatusOf(l.word));
    VersionKept(v, if l.minor == '1' as int then 11 else 10);
  }

  lemma VersionKept(v: Fsm, version: nat)
    requires v.hd != [] && VersionAt(v.mem, v.hd[0].at + 5) == Some(version)
    ensures Dispatch(v).version == version
  {
  }

  lemma NothingPhase(texts: seq<seq<Byte>>)
    requires GoodLines(texts) && SaysNothing(texts)
    ensures var v := Feed(Start, Head(texts)); v.phase == if v.rc == HRC_OK then Error else Finish
  {
    var v := FirstLine(texts);
    KindRead(v.mem, v.len, v.hd, texts);
    NoBodyPhase(v);
  }

  /** The text is a status line and its status, cut to 16 bits, is 200. */
  ghost predicate NamesOk(text: seq<Byte>) {
    exists l: StatusLine :: GoodStatusLine(l) && LineOf(l) == text && StatusOf(l.word) % UINT16 == HRC_OK
  }

  /** A version at its place. */
  predicate HasVersion(text: seq<Byte>) {
    |text| >= 8 && text[5] == '1' as int && text[6] == '.' as int && text[7] in {'0' as int, '1' as int}
  }

  /** Lines that are no status lines have status HRC_ERROR or 0. */
  lemma OtherLines(mem: seq<Byte>, first: Slice, text: seq<Byte>)
    requires TextAt(mem, first.at) == text && first.size == |text| && (|text| < 9 || !HasVersion(text))
    ensures StatusCode(mem, first) in {HRC_ERROR, 0}
  {
    if |text| < 5 {
      ShortLine(mem, first);
    } else if HasVersion(text) {
      VersionOnly(mem, first, text);
    } else {
      NoVersion(mem, first, text);
    }
  }

  lemma StatusIsOk(texts: seq<seq<Byte>>)
    requires GoodLines(texts)
    ensures Feed(Start, Head(texts)).rc == HRC_OK <==> NamesOk(texts[0])
  {
    if NamesOk(texts[0]) {
      var l: StatusLine :| GoodStatusLine(l) && LineOf(l) == texts[0] && StatusOf(l.word) % UINT16 == HRC_OK;
      ReplyStatus(texts, l);
      CutIsOk(StatusOf(l.word));
    } else if |texts[0]| >= 9 && HasVersion(texts[0]) {
      var l := EveryLineSplits(texts[0]);
      ReplyStatus(texts, l);
      CutIsOk(StatusOf(l.word));
    } else {
      var v := FirstLine(texts);
      OtherLines(v.mem, v.hd[0], texts[0]);
      StatusKept(v, StatusCode(v.mem, v.hd[0]));
    }
  }

  /** A message with neither length nor chunks nor upgrade, request or reply, is an error exactly if its first line is a
      status line whose status, cut to 16 bits, is 200; otherwise it is complete. */
  lemma NoBodyExactly(texts: seq<seq<Byte>>)
    requires GoodLines(texts) && SaysNothing(texts)
    ensures Feed(Start, Head(texts)).phase == if NamesOk(texts[0]) then Error else Finish
  {
    NothingPhase(texts);
    StatusIsOk(texts);
  }
}
