/**
 The state of HttpFSM (src/http.cpp, src/http.h) as a value, and what one received byte does to it.

 `m_p` is a sequence; pointers into it are offsets (`m_buf` is `line`, `current()` is `len`). It is as long as what
 was stored in it: the size of the block behind it is a value of its own, Block, which says whether every store
 was inside. `bl` is a 32-bit unsigned word. Class HttpParser is the parser itself, proved against these functions.
 */
module HttpMessage {
  import opened Options

  type Byte = b: int | 0 <= b < 256

  const CR: Byte := 13
  const LF: Byte := 10
  const MAX_HEADER: nat := 64
  const UINT32: int := 0x1_0000_0000
  const UINT16: int := 0x1_0000
  const TOKEN_SIZE: nat := 256
  const HRC_OK: int := 200
  const HRC_ERROR: int := -1

  datatype Phase = Header | Body | BodyNochunk | Bodylen | Footer | Comment | Finish | WebSocket | Error

  /** A recorded header: where it starts, and its length as the code stores it (16 bits). */
  datatype Slice = Slice(at: nat, size: nat)

  datatype Fsm = Fsm(mem: seq<Byte>, len: nat, line: nat, phase: Phase, hd: seq<Slice>, bd: nat, bl: nat, rc: int,
                     version: nat)

  /** Reading a byte at an offset; what lies beyond the received bytes reads as 0 here. */
  function At(mem: seq<Byte>, i: int): Byte {
    if 0 <= i < |mem| then mem[i] else 0
  }

  /** Storing a byte at an offset at or below the end. */
  function Store(mem: seq<Byte>, i: nat, b: Byte): (r: seq<Byte>)
    requires i <= |mem|
    ensures |r| == if i < |mem| then |mem| else |mem| + 1
    ensures forall j :: 0 <= j < |r| ==> r[j] == if j == i then b else mem[j]
  {
    if i < |mem| then mem[i := b] else mem + [b]
  }

  /** Offsets stay inside the buffer, the byte after the last received one is there, and the header lines up to
      `line` have been recorded. */
  predicate Coherent(v: Fsm) {
    v.len < |v.mem| && v.line <= v.len && (v.phase.Header? && v.line > 0 ==> v.hd != [])
  }

  const Start: Fsm := Fsm([0], 0, 0, Header, [], 0, 0, 0, 11)

  /** `m_p[m_len++] = c; m_p[m_len] = '\0'` */
  function Put(v: Fsm, c: Byte): (r: Fsm)
    requires Coherent(v)
    ensures Coherent(r) && r.len == v.len + 1
  {
    v.(mem := Store(Store(v.mem, v.len, c), v.len + 1, 0), len := v.len + 1)
  }

  /** The last `n` received bytes overwritten with 0. */
  function Blank(mem: seq<Byte>, len: nat, n: nat): (r: seq<Byte>)
    requires n <= len <= |mem|
    ensures |r| == |mem| && forall j :: 0 <= j < |mem| ==> r[j] == if len - n <= j < len then 0 else mem[j]
  {
    seq(|mem|, j requires 0 <= j < |mem| => if len - n <= j < len then 0 else mem[j])
  }

  /** Length of the line terminator just received: 2 for CR LF, 1 for LF alone, 0 for none. */
  function RecvLf(mem: seq<Byte>, len: nat): (n: nat)
    ensures n <= 2 && n <= len && (n > 0 ==> n < len)
  {
    if len > 2 && At(mem, len - 2) == CR && At(mem, len - 1) == LF then 2
    else if len > 1 && At(mem, len - 1) == LF then 1
    else 0
  }

  // ---------- text ----------

  function ToLower(b: Byte): Byte {
    if 'A' as int <= b <= 'Z' as int then b + 32 else b
  }

  function Ascii(s: string): (r: seq<Byte>)
    ensures |r| == |s|
  {
    seq(|s|, i requires 0 <= i < |s| => if s[i] < 256 as char then s[i] as int else 0)
  }

  /** The string that starts at offset `i`, up to the next 0. */
  function TextAt(mem: seq<Byte>, i: nat): seq<Byte>
    decreases |mem| - i
  {
    if i >= |mem| || mem[i] == 0 then [] else [mem[i]] + TextAt(mem, i + 1)
  }

  /** `text` begins with `key`, ignoring case. */
  predicate HasKey(text: seq<Byte>, key: seq<Byte>) {
    |key| <= |text| && forall i :: 0 <= i < |key| ==> ToLower(text[i]) == ToLower(key[i])
  }

  function SkipSeparators(text: seq<Byte>): seq<Byte> {
    if text != [] && (text[0] == ' ' as int || text[0] == ':' as int) then SkipSeparators(text[1..]) else text
  }

  /** `hdrstr`: the value of the first header that begins with the key; none if it does not fit the buffer. */
  function HeaderValue(texts: seq<seq<Byte>>, key: seq<Byte>): Option<seq<Byte>> {
    if texts == [] then None
    else if HasKey(texts[0], key) then
      var value := SkipSeparators(texts[0][|key|..]);
      if |value| >= TOKEN_SIZE then None else Some(value)
    else HeaderValue(texts[1..], key)
  }

  /** How far `text` agrees with `key`, ignoring case. */
  function Matched(text: seq<Byte>, key: seq<Byte>): (m: nat)
    ensures m <= |text| && m <= |key|
    ensures HasKey(text, key) <==> m == |key|
  {
    if text == [] || key == [] || ToLower(text[0]) != ToLower(key[0]) then 0
    else
      assert HasKey(text, key) <==> HasKey(text[1..], key[1..]) by {
        assert forall i :: 0 <= i < |key| - 1 ==> key[1..][i] == key[i + 1];
        assert forall i :: 0 < i < |key| && i < |text| ==> text[1..][i - 1] == text[i] && key[1..][i - 1] == key[i];
      }
      1 + Matched(text[1..], key[1..])
  }

  /** `hdrstr` as the code searches: it gives up altogether when a line agrees with the key further than its
      recorded length, which is cut to 16 bits, says it goes. */
  function HeaderSearch(texts: seq<seq<Byte>>, hd: seq<Slice>, key: seq<Byte>): Option<seq<Byte>>
    requires |texts| == |hd|
  {
    if texts == [] || Matched(texts[0], key) > hd[0].size + 1 then None
    else if Matched(texts[0], key) == |key| then
      var value := SkipSeparators(texts[0][|key|..]);
      if |value| >= TOKEN_SIZE then None else Some(value)
    else HeaderSearch(texts[1..], hd[1..], key)
  }

  /** The recorded lengths cover their lines: so for lines below 64 KiB. */
  predicate Covering(texts: seq<seq<Byte>>, hd: seq<Slice>) {
    |texts| == |hd| && forall i :: 0 <= i < |texts| ==> |texts[i]| <= hd[i].size
  }

  /** Then the search finds the value of the first header that begins with the key. */
  lemma {:induction false} SearchFinds(texts: seq<seq<Byte>>, hd: seq<Slice>, key: seq<Byte>)
    requires Covering(texts, hd)
    ensures HeaderSearch(texts, hd, key) == HeaderValue(texts, key)
    decreases |texts|
  {
    if texts != [] {
      assert |texts[0]| <= hd[0].size;
      assert forall i :: 0 <= i < |texts| - 1 ==> texts[1..][i] == texts[i + 1] && hd[1..][i] == hd[i + 1];
      SearchFinds(texts[1..], hd[1..], key);
    }
  }

  predicate IsDigit(b: Byte) { '0' as int <= b <= '9' as int }

  predicate AllDigits(text: seq<Byte>) {
    forall i :: 0 <= i < |text| ==> IsDigit(text[i])
  }

  function Decimal(text: seq<Byte>): nat
    requires AllDigits(text)
  {
    if text == [] then 0
    else
      assert IsDigit(text[|text| - 1]);
      10 * Decimal(text[..|text| - 1]) + (text[|text| - 1] - '0' as int)
  }

  function SkipSpaces(text: seq<Byte>): seq<Byte> {
    if text != [] && (text[0] == 32 || 9 <= text[0] <= 13) then SkipSpaces(text[1..]) else text
  }

  /** `std::stoi` of the whole text, as a 32-bit int. */
  function ParseInt(text: seq<Byte>): Option<int> {
    var t := SkipSpaces(text);
    var negative := t != [] && t[0] == '-' as int;
    var digits := if t != [] && (t[0] == '-' as int || t[0] == '+' as int) then t[1..] else t;
    if digits == [] || !AllDigits(digits) then None
    else
      var d: int := Decimal(digits);
      var n := if negative then -d else d;
      if -0x8000_0000 <= n < 0x8000_0000 then Some(n) else None
  }

  /** `hdrint` as the code searches. */
  function IntSearch(texts: seq<seq<Byte>>, hd: seq<Slice>, key: seq<Byte>): Option<int>
    requires |texts| == |hd|
  {
    var s := HeaderSearch(texts, hd, key);
    if s.None? then None else ParseInt(s.value)
  }

  /** The value of a header as an integer. */
  function HeaderInt(texts: seq<seq<Byte>>, key: seq<Byte>): Option<int> {
    var s := HeaderValue(texts, key);
    if s.None? then None else ParseInt(s.value)
  }

  function HexDigit(b: Byte): Option<nat> {
    if '0' as int <= b <= '9' as int then Some(b - '0' as int)
    else if 'a' as int <= b <= 'f' as int then Some(b - 'a' as int + 10)
    else if 'A' as int <= b <= 'F' as int then Some(b - 'A' as int + 10)
    else None
  }

  /** The value `htoi` accumulates over hex digits, going on from `acc`. */
  function HexFrom(text: seq<Byte>, acc: nat): Option<nat> {
    if text == [] then Some(acc)
    else if HexDigit(text[0]).None? then None
    else HexFrom(text[1..], acc * 16 + HexDigit(text[0]).value)
  }

  /** `htoi` with its limit: fails on a non-digit and when the text is not shorter than `max`. */
  function Hex(text: seq<Byte>, max: nat): Option<int> {
    var minus := text != [] && text[0] == '-' as int;
    var digits := if minus then text[1..] else text;
    var n := HexFrom(digits, 0);
    if n.None? || (digits != [] && |text| >= max) then None
    else
      var value: int := n.value;
      Some(if minus then -value else value)
  }

  // ---------- the status line ----------

  /** How many spaces there are from offset `w` on. */
  function Blanks(mem: seq<Byte>, w: nat): nat
    decreases |mem| - w
  {
    if w >= |mem| || mem[w] != ' ' as int then 0 else 1 + Blanks(mem, w + 1)
  }

  /** The text at `w` up to a space or its end. */
  function WordAt(mem: seq<Byte>, w: nat): seq<Byte>
    decreases |mem| - w
  {
    if w >= |mem| || mem[w] == 0 || mem[w] == ' ' as int then [] else [mem[w]] + WordAt(mem, w + 1)
  }

  /** `atoi`: an optional minus and digits; nothing at all is 0. */
  function ParseDigits(word: seq<Byte>): Option<int> {
    var minus := word != [] && word[0] == '-' as int;
    var digits := if minus then word[1..] else word;
    if !AllDigits(digits) then None
    else
      var n: int := Decimal(digits);
      Some(if minus then -n else n)
  }

  /** The version named at offset `w`: 11, 10 or none. */
  function VersionAt(mem: seq<Byte>, w: nat): Option<nat> {
    if At(mem, w) != '1' as int || At(mem, w + 1) != '.' as int then None
    else if At(mem, w + 2) == '1' as int then Some(11)
    else if At(mem, w + 2) == '0' as int then Some(10)
    else None
  }

  /** Where the status word starts, for a line at `s`: past the byte after the version and past spaces. */
  function StatusWordAt(mem: seq<Byte>, s: nat): nat {
    if At(mem, s + 8) == 0 then s + 8 else s + 9 + Blanks(mem, s + 9)
  }

  /** `putrc`, before its result is cut to 16 bits: each space and each byte of the word passed is checked
      against the recorded length of the line, each byte of the word against the token buffer. */
  function StatusCode(mem: seq<Byte>, first: Slice): int {
    var s := first.at;
    var w := StatusWordAt(mem, s);
    var word := WordAt(mem, w);
    if VersionAt(mem, s + 5).None? || (w > s + 9 && w - 1 - s > first.size) then HRC_ERROR
    else if word != [] && (w + |word| - s > first.size || |word| >= TOKEN_SIZE) then HRC_ERROR
    else
      var n := ParseDigits(word);
      if n.None? then HRC_ERROR else n.value
  }

  /** What is stored in `m_ctx.res`. */
  function Signed16(n: int): int {
    (n + 0x8000) % UINT16 - 0x8000
  }

  /** The first line's status and version recorded. */
  function WithStatus(v: Fsm): Fsm
    requires v.hd != []
  {
    var version := VersionAt(v.mem, v.hd[0].at + 5);
    v.(rc := Signed16(StatusCode(v.mem, v.hd[0])), version := if version.Some? then version.value else v.version)
  }

  // ---------- one function per phase, after the byte has been stored ----------

  function Texts(mem: seq<Byte>, hd: seq<Slice>): (r: seq<seq<Byte>>)
    ensures |r| == |hd| && forall i :: 0 <= i < |hd| ==> r[i] == TextAt(mem, hd[i].at)
  {
    seq(|hd|, i requires 0 <= i < |hd| => TextAt(mem, hd[i].at))
  }

  function Unsigned(n: int): nat {
    n % UINT32
  }

  predicate BeginsWith(text: seq<Byte>, prefix: seq<Byte>) {
    |prefix| <= |text| && text[..|prefix|] == prefix
  }

  /** What the headers say about how the message goes on. */
  datatype Kind = Length(n: int) | Chunks | Upgrade | NoBody

  function KindOf(texts: seq<seq<Byte>>, hd: seq<Slice>): Kind
    requires |texts| == |hd|
  {
    var length := IntSearch(texts, hd, Ascii("Content-Length"));
    var coding := HeaderSearch(texts, hd, Ascii("Transfer-Encoding"));
    if length.Some? then Length(length.value)
    else if coding.Some? && BeginsWith(coding.value, Ascii("chunked")) then Chunks
    else if HeaderSearch(texts, hd, Ascii("Sec-WebSocket-Key")).Some? then Upgrade
    else if HeaderSearch(texts, hd, Ascii("Sec-WebSocket-Accept")).Some? then Upgrade
    else NoBody
  }

  /** The end of the header block: what comes next. */
  function Dispatch(v: Fsm): (r: Fsm)
    requires v.hd != []
    ensures r.mem == v.mem && r.len == v.len && r.line in {v.line, v.len} && !r.phase.Header?
  {
    var w := WithStatus(v);
    match KindOf(Texts(v.mem, v.hd), v.hd)
    case Length(n) => w.(phase := BodyNochunk, bd := v.len, bl := Unsigned(n))
    case Chunks => w.(phase := Bodylen, line := v.len, bd := v.len, bl := 0)
    case Upgrade => w.(phase := WebSocket)
    case NoBody => w.(phase := if w.rc == HRC_OK then Error else Finish)
  }

  /** A completed line of the header or the trailer is recorded, or there is no room for it. */
  function Record(v: Fsm, nlf: nat): Fsm {
    if |v.hd| < MAX_HEADER
    then v.(hd := v.hd + [Slice(v.line, (v.len - v.line - nlf) % UINT16)], line := v.len)
    else v.(phase := Error)
  }

  function RecvHeader(v: Fsm): (r: Fsm)
    requires Coherent(v) && v.phase.Header?
    ensures Coherent(r)
  {
    var nlf := RecvLf(v.mem, v.len);
    if nlf == 0 then v
    else
      var w := v.(mem := Blank(v.mem, v.len, nlf));
      if v.len - nlf == v.line then Dispatch(w) else Record(w, nlf)
  }

  function RecvFooter(v: Fsm): (r: Fsm)
    requires Coherent(v) && v.phase.Footer?
    ensures Coherent(r)
  {
    var nlf := RecvLf(v.mem, v.len);
    if nlf == 0 then v
    else
      var w := v.(mem := Blank(v.mem, v.len, nlf));
      if v.len - nlf == v.line then w.(phase := Finish) else Record(w, nlf)
  }

  function RecvBody(v: Fsm): (r: Fsm)
    requires Coherent(v) && v.phase.Body?
    ensures Coherent(r)
  {
    var nlf := RecvLf(v.mem, v.len);
    var diff := v.bd + v.bl - (v.len - nlf);
    if nlf == 0 || diff > 0 then v
    else if diff < 0 then v.(phase := Error)
    else v.(len := v.len - nlf, line := v.len - nlf, phase := Bodylen)
  }

  function RecvBodyNochunk(v: Fsm): (r: Fsm)
    requires Coherent(v) && v.phase.BodyNochunk?
    ensures Coherent(r)
  {
    var diff := v.bd + v.bl - v.len;
    if diff > 0 then v else if diff < 0 then v.(phase := Error) else v.(phase := Finish)
  }

  /** The size line of a chunk. The test for a comment looks at the terminating 0, not at the last byte. */
  function RecvBodylen(v: Fsm): (r: Fsm)
    requires Coherent(v) && v.phase.Bodylen?
    ensures Coherent(r)
  {
    var nlf := RecvLf(v.mem, v.len);
    var comment := nlf == 0 && At(v.mem, v.len) == ';' as int;
    if nlf == 0 && !comment then v
    else
      var n := if comment then 1 else nlf;
      var w := v.(mem := if n <= v.len then Blank(v.mem, v.len, n) else v.mem);
      var size := Hex(TextAt(w.mem, v.line), v.len - v.line);
      if size.None? then w.(phase := Error)
      else if size.value == 0 then w.(phase := Footer, line := v.len)
      else w.(phase := if comment then Comment else Body, bl := Unsigned(v.bl + size.value), len := v.line)
  }

  function RecvComment(v: Fsm): (r: Fsm)
    requires Coherent(v) && v.phase.Comment?
    ensures Coherent(r)
  {
    if RecvLf(v.mem, v.len) == 0 then v else v.(phase := Body, len := v.line)
  }

  // ---------- bytes ----------

  predicate Stopped(v: Fsm) {
    v.phase.Error? || v.phase.Finish?
  }

  /** What one more byte does. */
  function Take(v: Fsm, c: Byte): (r: Fsm)
    requires Coherent(v)
    ensures Coherent(r)
  {
    var w := Put(v, c);
    match v.phase
    case Header => RecvHeader(w)
    case Body => RecvBody(w)
    case BodyNochunk => RecvBodyNochunk(w)
    case Bodylen => RecvBodylen(w)
    case Footer => RecvFooter(w)
    case Comment => RecvComment(w)
    case _ => w
  }

  /** `append` of a piece: it stops at an error, at the end of the message, and after one byte of an
      established websocket. */
  function Feed(v: Fsm, piece: seq<Byte>): (r: Fsm)
    requires Coherent(v)
    ensures Coherent(r)
    decreases |piece|
  {
    if piece == [] || Stopped(v) then v
    else if v.phase.WebSocket? then Put(v, piece[0])
    else Feed(Take(v, piece[0]), piece[1..])
  }

  // ---------- the block that holds the buffer ----------

  /** What a reset may ask for: below, the words of the code do not wrap. */
  type ChunkSize = n: nat | 1 < n <= 0x8000_0000 witness 512

  /** The block `m_p` points to: `m_max`, its size now, and whether every byte stored so far lay inside it. */
  datatype Block = Block(max: ChunkSize, size: nat, inside: bool)

  function NewBlock(chunk: ChunkSize): Block {
    Block(chunk, chunk, true)
  }

  /** `limit` of append. */
  function Limit(k: Block): nat {
    k.max - 1
  }

  /** Before a byte is stored at offset `len`: at the limit the block is reallocated, to twice the limit. */
  function MadeRoom(k: Block, len: nat): Block {
    if len >= Limit(k) then k.(size := 2 * Limit(k)) else k
  }

  /** A byte and a 0 stored from offset `len` on. */
  function StoredAt(k: Block, len: nat): Block {
    k.(inside := k.inside && len + 1 < k.size)
  }

  function TakenAt(k: Block, len: nat): Block {
    StoredAt(MadeRoom(k, len), len)
  }

  /** What `append` of a piece does to the block. */
  function FeedBlock(v: Fsm, k: Block, piece: seq<Byte>): Block
    requires Coherent(v)
    decreases |piece|
  {
    if piece == [] || Stopped(v) then k
    else if v.phase.WebSocket? then TakenAt(k, v.len)
    else FeedBlock(Take(v, piece[0]), TakenAt(k, v.len), piece[1..])
  }

  /** The body as the application reads it: `bl` bytes at `bd`. */
  function BodyOf(v: Fsm): seq<Byte> {
    if v.bd + v.bl <= |v.mem| then v.mem[v.bd..v.bd + v.bl] else []
  }
}
