/**
 HttpFSM (src/http.cpp): the incremental parser, byte by byte on its own buffer. Each method is proved against
 the function of HttpMessage that says what it does to the state.
 */
module HttpParser {
  import opened Options
  import opened HttpMessage

  // ---------- text in the buffer ----------

  lemma {:induction false} TextPrefix(mem: seq<Byte>, i: nat, k: nat)
    requires i + k <= |mem| && forall j :: i <= j < i + k ==> mem[j] != 0
    ensures |TextAt(mem, i)| >= k && TextAt(mem, i) == mem[i..i + k] + TextAt(mem, i + k)
    decreases k
  {
    if k > 0 {
      TextPrefix(mem, i + 1, k - 1);
      assert mem[i..i + k] == [mem[i]] + mem[i + 1..i + k];
    }
  }

  lemma TextEnds(mem: seq<Byte>, i: nat, k: nat)
    requires i + k <= |mem| && (forall j :: i <= j < i + k ==> mem[j] != 0) && At(mem, i + k) == 0
    ensures TextAt(mem, i) == mem[i..i + k]
  {
    TextPrefix(mem, i, k);
  }

  class HttpFSM {
    var m_p: seq<Byte>
    var m_len: nat
    var m_buf: nat
    var state: Phase
    var hd: seq<Slice>
    var bd: nat
    var bl: nat
    var res: int
    var version: nat
    var m_max: ChunkSize
    var size: nat
    ghost var inside: bool

    ghost function View(): Fsm
      reads this
    {
      Fsm(m_p, m_len, m_buf, state, hd, bd, bl, res, version)
    }

    ghost predicate Valid()
      reads this
    {
      Coherent(View())
    }

    ghost function BlockView(): Block
      reads this
    {
      Block(m_max, size, inside)
    }

    constructor (chunk: ChunkSize)
      ensures Valid() && View() == Start && BlockView() == NewBlock(chunk)
    {
      m_p, m_len, m_buf, state, hd, bd, bl, res, version := [0], 0, 0, Header, [], 0, 0, 0, 11;
      m_max, size, inside := chunk, chunk, true;
    }

    /** Overwrites the last `n` received bytes with 0. */
    method BlankLast(n: nat)
      requires Valid() && n <= m_len
      modifies this`m_p
      ensures View() == old(View()).(mem := Blank(old(m_p), m_len, n))
    {
      var tmp := n;
      while tmp > 0
        invariant 0 <= tmp <= n && |m_p| == |old(m_p)| && m_len == old(m_len)
        invariant forall j :: 0 <= j < |m_p| ==> m_p[j] == if m_len - n <= j < m_len - tmp then 0 else old(m_p)[j]
      {
        m_p := m_p[m_len - tmp := 0];
        tmp := tmp - 1;
      }
      assert m_p == Blank(old(m_p), m_len, n);
    }

    /** `hdrstr` without the caller's buffer: scans the recorded headers for a key. */
    method HdrStr(key: seq<Byte>) returns (r: Option<seq<Byte>>)
      requires 0 !in key
      ensures r == HeaderSearch(Texts(m_p, hd), hd, key)
    {
      var i := 0;
      ghost var texts := Texts(m_p, hd);
      while i < |hd|
        invariant i <= |hd|
        invariant HeaderSearch(texts, hd, key) == HeaderSearch(texts[i..], hd[i..], key)
      {
        var p := hd[i].at;
        assert texts[i..][0] == TextAt(m_p, p) && texts[i..][1..] == texts[i + 1..] && hd[i..][1..] == hd[i + 1..];
        var k := MatchKey(p, hd[i].size, key);
        if k.None? {
          return None;
        }
        if k.value == |key| {
          MatchedText(m_p, p, key);
          r := CopyValue(p + k.value);
          return;
        }
        i := i + 1;
      }
      return None;
    }

    /** How far the line at `p` agrees with the key; none as soon as that is further than the line's length. */
    method MatchKey(p: nat, size: nat, key: seq<Byte>) returns (r: Option<nat>)
      requires 0 !in key
      ensures var m := Matched(TextAt(m_p, p), key); r == if m > size + 1 then None else Some(m)
    {
      var k := 0;
      while k < |key| && ToLower(key[k]) == ToLower(At(m_p, p + k))
        invariant k <= |key| && k <= size + 1
        invariant Matched(TextAt(m_p, p), key) == k + Matched(TextAt(m_p, p + k), key[k..])
      {
        OneMoreMatched(m_p, p + k, key[k..]);
        assert key[k..][1..] == key[k + 1..];
        if k > size {
          return None;
        }
        k := k + 1;
      }
      MatchEnds(m_p, p + k, key[k..]);
      return Some(k);
    }

    /** Skips separators from offset `start` and copies what follows, if it fits. */
    method CopyValue(start: nat) returns (r: Option<seq<Byte>>)
      ensures var value := SkipSeparators(TextAt(m_p, start));
              r == if |value| >= TOKEN_SIZE then None else Some(value)
    {
      var p := start;
      while At(m_p, p) == ' ' as int || At(m_p, p) == ':' as int
        invariant SkipSeparators(TextAt(m_p, start)) == SkipSeparators(TextAt(m_p, p))
        decreases |m_p| - p
      {
        assert TextAt(m_p, p)[1..] == TextAt(m_p, p + 1);
        p := p + 1;
      }
      assert SkipSeparators(TextAt(m_p, p)) == TextAt(m_p, p);
      var out: seq<Byte> := [];
      ghost var value := TextAt(m_p, p);
      while At(m_p, p) != 0
        invariant value == out + TextAt(m_p, p) && |out| < TOKEN_SIZE
        decreases |m_p| - p
      {
        out := out + [m_p[p]];
        p := p + 1;
        if |out| >= TOKEN_SIZE {
          return None;
        }
      }
      assert value == out;
      return Some(out);
    }

    /** `hdrint` */
    method HdrInt(key: seq<Byte>) returns (r: Option<int>)
      requires 0 !in key
      ensures r == IntSearch(Texts(m_p, hd), hd, key)
    {
      var b := HdrStr(key);
      r := if b.None? then None else ParseInt(b.value);
    }

    /** `htoi` on the string at offset `str`. */
    method Htoi(str: nat, max: nat) returns (r: Option<int>)
      ensures r == Hex(TextAt(m_p, str), max)
    {
      var s := str;
      var minus := At(m_p, s) == '-' as int;
      if minus {
        s := s + 1;
      }
      ghost var digits := TextAt(m_p, s);
      ghost var first := s;
      assert TextAt(m_p, str) == if minus then ['-' as int] + digits else digits;
      assert minus ==> TextAt(m_p, str)[1..] == digits;
      var n := 0;
      while At(m_p, s) != 0
        invariant 0 <= n && first <= s
        invariant |digits| == s - first + |TextAt(m_p, s)|
        invariant HexFrom(digits, 0) == HexFrom(TextAt(m_p, s), n)
        invariant s == first || s - str < max
        decreases |m_p| - s
      {
        assert TextAt(m_p, s)[0] == m_p[s] && TextAt(m_p, s)[1..] == TextAt(m_p, s + 1);
        var num := HexDigit(m_p[s]);
        if num.None? {
          return None;
        }
        n := n * 16 + num.value;
        s := s + 1;
        if s - str >= max {
          return None;
        }
      }
      return Some(if minus then -n else n);
    }

    // ---------- receiving ----------

    /** `putrc`: version and status word of the first line, with the checks of the code on the way. */
    method PutRc() returns (rc: int)
      requires hd != []
      modifies this`version
      ensures rc == StatusCode(m_p, hd[0])
      ensures version == (var v := VersionAt(m_p, hd[0].at + 5); if v.Some? then v.value else old(version))
    {
      var s := hd[0].at;
      var v := VersionAt(m_p, s + 5);
      if v.None? {
        return HRC_ERROR;
      }
      version := v.value;
      var w := FindWord(s, hd[0].size);
      if w.None? {
        return HRC_ERROR;
      }
      var tok := CopyWord(w.value, s, hd[0].size);
      if tok.None? {
        return HRC_ERROR;
      }
      var sc := Atoi(tok.value);
      rc := if sc.None? then HRC_ERROR else sc.value;
    }

    /** The loop that skips the byte after the version and spaces. */
    method FindWord(s: nat, size: nat) returns (r: Option<nat>)
      ensures var w := StatusWordAt(m_p, s); r == if w > s + 9 && w - 1 - s > size then None else Some(w)
    {
      var w := s + 8;
      if At(m_p, w) != 0 {
        w := w + 1;
        while At(m_p, w) == ' ' as int
          invariant s + 9 <= w && (w > s + 9 ==> w - 1 - s <= size)
          invariant StatusWordAt(m_p, s) == w + Blanks(m_p, w)
          decreases |m_p| - w
        {
          if w - s > size {
            return None;
          }
          w := w + 1;
        }
      }
      return Some(w);
    }

    /** The loop that copies the status word. */
    method CopyWord(start: nat, s: nat, size: nat) returns (tok: Option<seq<Byte>>)
      ensures var word := WordAt(m_p, start);
        tok == if word != [] && (start + |word| - s > size || |word| >= TOKEN_SIZE) then None else Some(word)
    {
      var w := start;
      var t: seq<Byte> := [];
      while At(m_p, w) != 0 && At(m_p, w) != ' ' as int
        invariant start <= w && WordAt(m_p, start) == t + WordAt(m_p, w) && w == start + |t|
        invariant t != [] ==> w - s <= size && |t| < TOKEN_SIZE
        decreases |m_p| - w
      {
        t := t + [m_p[w]];
        w := w + 1;
        if w - s > size || |t| >= TOKEN_SIZE {
          return None;
        }
      }
      assert WordAt(m_p, w) == [] && t + [] == t;
      return Some(t);
    }

    /** `atoi` on a word that fits its buffer. */
    static method Atoi(word: seq<Byte>) returns (r: Option<int>)
      ensures r == ParseDigits(word)
    {
      var minus := word != [] && word[0] == '-' as int;
      var digits := if minus then word[1..] else word;
      var i, n := 0, 0;
      while i < |digits|
        invariant i <= |digits| && AllDigits(digits[..i]) && n == Decimal(digits[..i])
      {
        if !IsDigit(digits[i]) {
          return None;
        }
        assert digits[..i + 1][..i] == digits[..i];
        n := n * 10 + (digits[i] - '0' as int);
        i := i + 1;
      }
      assert digits[..i] == digits;
      return Some(if minus then -n else n);
    }

    method ReceiveHeader() returns (s: Phase)
      requires Valid() && state.Header?
      modifies this
      ensures Valid() && View().(phase := s) == RecvHeader(old(View())) && state == old(state) && BlockView() == old(BlockView())
    {
      var nlf := RecvLf(m_p, m_len);
      if nlf == 0 {
        return Header;
      }
      BlankLast(nlf);
      if m_len - nlf == m_buf {
        s := EndOfHeader();
      } else {
        s := RecordLine(nlf, Header);
      }
    }

    /** The empty line has come: how the message goes on. */
    method EndOfHeader() returns (s: Phase)
      requires Valid() && state.Header? && hd != []
      modifies this
      ensures Valid() && View().(phase := s) == Dispatch(old(View())) && state == old(state) && BlockView() == old(BlockView())
    {
      RecordStatus();
      var kind := FindKind();
      match kind {
        case Length(n) =>
          bd, bl := m_len, Unsigned(n);
          s := BodyNochunk;
        case Chunks =>
          m_buf, bd, bl := m_len, m_len, 0;
          s := Bodylen;
        case Upgrade => s := WebSocket;
        case NoBody => s := if res == HRC_OK then Error else Finish;
      }
    }

    /** `m_ctx.res = putrc()`, which cuts it to 16 bits. */
    method RecordStatus()
      requires Valid() && hd != []
      modifies this`res, this`version
      ensures View() == WithStatus(old(View()))
    {
      var rc := PutRc();
      res := Signed16(rc);
    }

    /** The searches, in their order. */
    method FindKind() returns (k: Kind)
      ensures k == KindOf(Texts(m_p, hd), hd)
    {
      var cl := HdrInt(Ascii("Content-Length"));
      if cl.Some? {
        return Length(cl.value);
      }
      var tok := HdrStr(Ascii("Transfer-Encoding"));
      if tok.Some? && BeginsWith(tok.value, Ascii("chunked")) {
        return Chunks;
      }
      tok := HdrStr(Ascii("Sec-WebSocket-Key"));
      if tok.Some? {
        return Upgrade;
      }
      tok := HdrStr(Ascii("Sec-WebSocket-Accept"));
      k := if tok.Some? then Upgrade else NoBody;
    }

    /** Records the line that ends at `current()`, or reports that there are too many. */
    method RecordLine(nlf: nat, next: Phase) returns (s: Phase)
      requires Valid()
      modifies this
      ensures Valid() && View().(phase := s) == Record(old(View()).(phase := next), nlf) && state == old(state) && BlockView() == old(BlockView())
    {
      if |hd| < MAX_HEADER {
        hd := hd + [Slice(m_buf, (m_len - m_buf - nlf) % UINT16)];
        m_buf := m_len;
        return next;
      }
      return Error;
    }

    method ReceiveBody() returns (s: Phase)
      requires Valid() && state.Body?
      modifies this
      ensures Valid() && View().(phase := s) == RecvBody(old(View())) && state == old(state) && BlockView() == old(BlockView())
    {
      var nlf := RecvLf(m_p, m_len);
      if nlf != 0 {
        var diff := bd + bl - (m_len - nlf);
        if diff > 0 {
          return Body;
        } else if diff < 0 {
          return Error;
        }
        m_len := m_len - nlf;
        m_buf := m_len;
        return Bodylen;
      }
      return Body;
    }

    method ReceiveBodyNochunk() returns (s: Phase)
      requires Valid() && state.BodyNochunk?
      ensures View().(phase := s) == RecvBodyNochunk(View())
    {
      var diff := bd + bl - m_len;
      if diff > 0 {
        return BodyNochunk;
      } else if diff < 0 {
        return Error;
      }
      return Finish;
    }

    method ReceiveBodylen() returns (s: Phase)
      requires Valid() && state.Bodylen? && 0 < m_len
      modifies this
      ensures Valid() && View().(phase := s) == RecvBodylen(old(View())) && state == old(state) && BlockView() == old(BlockView())
    {
      s := Bodylen;
      var nlf := RecvLf(m_p, m_len);
      if nlf != 0 {
        s := Body;
      } else if At(m_p, m_len) == ';' as int {
        nlf := 1;
        s := Comment;
      }
      if s != Bodylen {
        BlankLast(nlf);
        var cl := Htoi(m_buf, m_len - m_buf);
        if cl.None? {
          return Error;
        }
        if cl.value == 0 {
          m_buf := m_len;
          return Footer;
        }
        bl := Unsigned(bl + cl.value);
        m_len := m_len - (m_len - m_buf);
      }
    }

    method ReceiveFooter() returns (s: Phase)
      requires Valid() && state.Footer?
      modifies this
      ensures Valid() && View().(phase := s) == RecvFooter(old(View())) && state == old(state) && BlockView() == old(BlockView())
    {
      var nlf := RecvLf(m_p, m_len);
      if nlf == 0 {
        return Footer;
      }
      BlankLast(nlf);
      if m_len - nlf == m_buf {
        return Finish;
      }
      s := RecordLine(nlf, Footer);
    }

    method ReceiveComment() returns (s: Phase)
      requires Valid() && state.Comment?
      modifies this
      ensures Valid() && View().(phase := s) == RecvComment(old(View())) && state == old(state) && BlockView() == old(BlockView())
    {
      var nlf := RecvLf(m_p, m_len);
      if nlf != 0 {
        m_len := m_len - (m_len - m_buf);
        return Body;
      }
      return Comment;
    }

    /** `realloc`, at the limit. */
    method MakeRoom()
      modifies this`size
      ensures BlockView() == MadeRoom(old(BlockView()), m_len)
    {
      var limit := m_max - 1;
      if m_len >= limit {
        size := limit * 2;
      }
    }

    /** `m_p[m_len++] = c; m_p[m_len] = '\0'` */
    method StoreByte(c: Byte)
      requires Valid()
      modifies this`m_p, this`m_len, this`inside
      ensures Valid() && View() == Put(old(View()), c) && BlockView() == StoredAt(old(BlockView()), old(m_len))
    {
      inside := inside && m_len + 1 < size;
      m_p := Store(m_p, m_len, c);
      m_len := m_len + 1;
      m_p := Store(m_p, m_len, 0);
    }

    /** Stores one byte and runs the handler of the current phase. */
    method TakeByte(c: Byte)
      requires Valid() && !state.WebSocket?
      modifies this
      ensures Valid() && View() == Take(old(View()), c) && BlockView() == StoredAt(old(BlockView()), old(m_len))
    {
      StoreByte(c);
      var s := state;
      match state {
        case Header => s := ReceiveHeader();
        case Body => s := ReceiveBody();
        case BodyNochunk => s := ReceiveBodyNochunk();
        case Bodylen => s := ReceiveBodylen();
        case Footer => s := ReceiveFooter();
        case Comment => s := ReceiveComment();
        case _ =>
      }
      state := s;
    }

    /** `append`: consumes a piece byte by byte until it is used up or the message stops. */
    method Append(piece: seq<Byte>)
      requires Valid() && piece != []
      modifies this
      ensures Valid() && View() == Feed(old(View()), piece)
      ensures BlockView() == FeedBlock(old(View()), old(BlockView()), piece)
    {
      ghost var v0, k0 := View(), BlockView();
      var w := 0;
      while state != Error && state != Finish && w < |piece|
        invariant w <= |piece| && Valid()
        invariant Feed(v0, piece) == Feed(View(), piece[w..])
        invariant FeedBlock(v0, k0, piece) == FeedBlock(View(), BlockView(), piece[w..])
        decreases |piece| - w
      {
        assert piece[w..][0] == piece[w] && piece[w..][1..] == piece[w + 1..];
        MakeRoom();
        if state.WebSocket? {
          StoreByte(piece[w]);
          return;
        }
        TakeByte(piece[w]);
        w := w + 1;
      }
    }
  }

  /** Pieces appended one after the other. */
  function FeedAll(v: Fsm, pieces: seq<seq<Byte>>): (r: Fsm)
    requires Coherent(v)
    ensures Coherent(r)
    decreases |pieces|
  {
    if pieces == [] then v else FeedAll(Feed(v, pieces[0]), pieces[1..])
  }

  /** What the pieces do to the block. */
  function FeedAllBlock(v: Fsm, k: Block, pieces: seq<seq<Byte>>): Block
    requires Coherent(v)
    decreases |pieces|
  {
    if pieces == [] then k else FeedAllBlock(Feed(v, pieces[0]), FeedBlock(v, k, pieces[0]), pieces[1..])
  }

  lemma OneMoreMatched(mem: seq<Byte>, p: nat, key: seq<Byte>)
    requires key != [] && key[0] != 0 && ToLower(key[0]) == ToLower(At(mem, p))
    ensures Matched(TextAt(mem, p), key) == 1 + Matched(TextAt(mem, p + 1), key[1..])
  {
  }

  lemma MatchEnds(mem: seq<Byte>, p: nat, key: seq<Byte>)
    requires key == [] || ToLower(key[0]) != ToLower(At(mem, p))
    ensures Matched(TextAt(mem, p), key) == 0
  {
  }

  /** What follows the key in a text that begins with it. */
  lemma {:induction false} MatchedText(mem: seq<Byte>, p: nat, key: seq<Byte>)
    requires Matched(TextAt(mem, p), key) == |key|
    ensures |key| <= |TextAt(mem, p)| && TextAt(mem, p)[|key|..] == TextAt(mem, p + |key|)
    decreases |key|
  {
    if key == [] {
      assert TextAt(mem, p)[0..] == TextAt(mem, p);
    } else {
      MatchedText(mem, p + 1, key[1..]);
      assert TextAt(mem, p)[|key|..] == TextAt(mem, p + 1)[|key| - 1..];
    }
  }
}
