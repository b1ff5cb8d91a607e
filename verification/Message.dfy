/** Messages: a header and a payload in one buffer, written and read through a cursor. */
module Message {
  import opened Sequences
  import opened Wire

  const MAGIC := 0x302ca58d7f47e0be
  const HEADER_SIZE := 40

  const WORD := Int(8, false)
  const HEADER := Pair(WORD, Pair(WORD, Pair(WORD, Pair(WORD, WORD))))

  datatype Ids = Ids(source: nat, rpc: nat, request: nat)

  predicate ValidIds(ids: Ids) {
    ids.source < Pow256(8) && ids.rpc < Pow256(8) && ids.request < Pow256(8)
  }

  function HeaderOf(ids: Ids, payload: nat): Value {
    Both(Number(MAGIC), Both(Number(ids.source), Both(Number(ids.rpc), Both(Number(ids.request), Number(payload)))))
  }

  lemma HeaderHasType(ids: Ids, payload: nat)
    requires ValidIds(ids) && payload < Pow256(8)
    ensures HasType(HEADER, HeaderOf(ids, payload))
    ensures |Write(HEADER, HeaderOf(ids, payload))| == HEADER_SIZE
  {
    MagicFits();
  }

  lemma MagicFits()
    ensures MAGIC < Pow256(8)
  {
    assert Pow256(4) == 0x1_0000_0000 by {
      assert Pow256(2) == 0x1_0000;
    }
    assert Pow256(6) == 0x1_0000_0000_0000;
  }

  /** The bytes of a whole message. */
  function MessageOf(ids: Ids, t: Type, v: Value): seq<byte>
    requires ValidIds(ids) && HasType(t, v) && |Write(t, v)| < Pow256(8)
  {
    HeaderHasType(ids, |Write(t, v)|);
    Write(HEADER, HeaderOf(ids, |Write(t, v)|)) + Write(t, v)
  }

  // -------------------------------------------------------------------------
  // The bytes of the header
  // -------------------------------------------------------------------------

  /** Every message begins with these bytes. */
  function MagicBytes(): (s: seq<byte>)
    ensures |s| == 8
  {
    [0x30, 0x2c, 0xa5, 0x8d, 0x7f, 0x47, 0xe0, 0xbe]
  }

  lemma MagicWord()
    ensures Word(MagicBytes()) == MAGIC
  {
    var s: seq<byte> := [0x30, 0x2c, 0xa5, 0x8d];
    WordOfFour(0x30, 0x2c, 0xa5, 0x8d);
    hide Word;
    WordAppend(s, 0x7f);
    WordAppend(s + [0x7f], 0x47);
    WordAppend(s + [0x7f] + [0x47], 0xe0);
    WordAppend(s + [0x7f] + [0x47] + [0xe0], 0xbe);
    assert s + [0x7f] + [0x47] + [0xe0] + [0xbe] == MagicBytes();
  }

  lemma WordOfFour(a: byte, b: byte, c: byte, d: byte)
    ensures Word([a, b, c, d]) == ((a * 256 + b) * 256 + c) * 256 + d
  {
    var s: seq<byte> := [];
    WordAppend(s, a);
    WordAppend(s + [a], b);
    WordAppend(s + [a] + [b], c);
    WordAppend(s + [a] + [b] + [c], d);
    assert s + [a] + [b] + [c] + [d] == [a, b, c, d];
    assert Word(s) == 0;
  }

  lemma WordIsMagic(s: seq<byte>)
    requires |s| == 8
    ensures Word(s) == MAGIC <==> s == MagicBytes()
  {
    hide Word, Bytes, MagicBytes;
    MagicWord();
    BytesOfWord(s);
    BytesOfWord(MagicBytes());
  }

  lemma WordAppend(s: seq<byte>, b: byte)
    ensures Word(s + [b]) == Word(s) * 256 + b
  {
    assert (s + [b])[..|s|] == s;
  }

  /** A header is read from any forty bytes: five words, one behind the other. */
  lemma HeaderRead(s: seq<byte>)
    requires |s| == 40
    ensures Read(HEADER, s) == Some((
      Both(Number(Word(s[..8])), Both(Number(Word(s[8..16])), Both(Number(Word(s[16..24])),
        Both(Number(Word(s[24..32])), Number(Word(s[32..40])))))), []))
  {
    hide Word;
    WordRead(s);
    WordRead(s[8..]);
    WordRead(s[16..]);
    WordRead(s[24..]);
    WordRead(s[32..]);
    assert s[8..][..8] == s[8..16] && s[8..][8..] == s[16..];
    assert s[16..][..8] == s[16..24] && s[16..][8..] == s[24..];
    assert s[24..][..8] == s[24..32] && s[24..][8..] == s[32..];
    assert s[32..][..8] == s[32..40] && s[32..][8..] == [];
    hide Read;
    PairRead(WORD, WORD, s[24..]);
    PairRead(WORD, Pair(WORD, WORD), s[16..]);
    PairRead(WORD, Pair(WORD, Pair(WORD, WORD)), s[8..]);
    PairRead(WORD, Pair(WORD, Pair(WORD, Pair(WORD, WORD))), s);
  }

  lemma WordRead(s: seq<byte>)
    ensures Read(WORD, s) == if |s| >= 8 then Some((Number(Word(s[..8])), s[8..])) else None
  {
  }

  /** Fewer bytes hold no header. */
  lemma HeaderShort(s: seq<byte>)
    requires |s| < 40
    ensures Read(HEADER, s) == None
  {
    if Read(HEADER, s).Some? {
      var n := 40 - |s|;
      ReadExtends(HEADER, s, seq(n, _ => 0));
      HeaderRead(s + seq(n, _ => 0));
    }
  }

  /** The header at the start of a buffer: forty bytes, the first eight of which are the magic number. */
  lemma HeaderMeans(s: seq<byte>)
    ensures Read(HEADER, s).Some? <==> |s| >= 40
    ensures |s| >= 40 ==>
      var header := Read(HEADER, s).value;
      && (MagicOf(header.0) == Some(MAGIC) <==> s[..8] == MagicBytes())
      && IdsOf(header.0) == Some(Ids(Word(s[8..16]), Word(s[16..24]), Word(s[24..32])))
      && header.1 == s[40..]
  {
    hide Read, Word;
    if |s| < 40 {
      HeaderShort(s);
    } else {
      var head := s[..40];
      HeaderRead(head);
      ReadExtends(HEADER, head, s[40..]);
      assert head + s[40..] == s && [] + s[40..] == s[40..];
      assert head[..8] == s[..8] && head[8..16] == s[8..16] && head[16..24] == s[16..24] && head[24..32] == s[24..32];
      hide MagicBytes;
      WordIsMagic(s[..8]);
    }
  }

  lemma PairRead(a: Type, b: Type, s: seq<byte>)
    requires Read(a, s).Some? && Read(b, Read(a, s).value.1).Some?
    ensures var x := Read(a, s).value;
      var y := Read(b, x.1).value;
      Read(Pair(a, b), s) == Some((Both(x.0, y.0), y.1))
  {
  }

  // -------------------------------------------------------------------------
  // Writing
  // -------------------------------------------------------------------------

  /** The `size` functions: they add up, element by element, what `write` will put out. */
  method SizeOf(t: Type, v: Value) returns (n: nat)
    requires HasType(t, v)
    ensures n == |Write(t, v)|
    decreases t, 0
  {
    match t
    case Unit => n := 0;
    case Bool => n := 1;
    case Int(width, signed) => n := width;
    case Pair(a, b) =>
      var x := SizeOf(a, v.x);
      var y := SizeOf(b, v.y);
      n := x + y;
    case Many(kind, elem) =>
      var total := SizeOfAll(elem, v.items);
      n := 8 + total;
    case Array(elem, length) => n := SizeOfAll(elem, v.items);
  }

  method SizeOfAll(t: Type, items: seq<Value>) returns (n: nat)
    requires AllHaveType(t, items)
    ensures n == |WriteAll(t, items)|
    decreases t, |items| + 1
  {
    hide HasType, Write;
    n := 0;
    var i := 0;
    assert items[0..] == items;
    while i < |items|
      invariant 0 <= i <= |items|
      invariant AllHaveType(t, items[i..])
      invariant n + |WriteAll(t, items[i..])| == |WriteAll(t, items)|
      decreases |items| - i
    {
      assert items[i..][0] == items[i] && items[i..][1..] == items[i + 1..];
      var size := SizeOf(t, items[i]);
      n := n + size;
      i := i + 1;
    }
  }

  class WriteMessage {
    const buffer: array<byte>
    var usage: nat

    function Written(): seq<byte>
      requires usage <= buffer.Length
      reads this, buffer
    {
      buffer[..usage]
    }

    /** The header, with room for the payload. */
    constructor (ids: Ids, payload: nat)
      requires ValidIds(ids) && payload < Pow256(8)
      ensures HasType(HEADER, HeaderOf(ids, payload)) && fresh(buffer)
      ensures buffer.Length == HEADER_SIZE + payload && usage == HEADER_SIZE
      ensures Written() == Write(HEADER, HeaderOf(ids, payload))
    {
      buffer := new byte[HEADER_SIZE + payload];
      usage := 0;
      new;
      HeaderHasType(ids, payload);
      WriteValue(HEADER, HeaderOf(ids, payload));
    }

    method PushBack(c: byte)
      requires usage < buffer.Length
      modifies this`usage, buffer
      ensures usage == old(usage) + 1
      ensures Written() == old(Written()) + [c]
    {
      buffer[usage] := c;
      usage := usage + 1;
    }

    /** The loop of the integer writers. */
    method WriteWord(width: nat, word: nat)
      requires usage + width <= buffer.Length
      modifies this`usage, buffer
      ensures usage == old(usage) + width
      ensures Written() == old(Written()) + Bytes(width, word)
    {
      var c := Bytes(width, word);
      for i := 0 to width
        invariant usage == old(usage) + i
        invariant Written() == old(Written()) + c[..i]
      {
        PushBack(c[i]);
        assert c[..i + 1] == c[..i] + [c[i]];
      }
      assert c[..width] == c;
    }

    /** `write`, for every type. */
    method WriteValue(t: Type, v: Value)
      requires HasType(t, v) && usage + |Write(t, v)| <= buffer.Length
      modifies this`usage, buffer
      ensures usage == old(usage) + |Write(t, v)|
      ensures Written() == old(Written()) + Write(t, v)
      decreases t, 0
    {
      hide Bytes, Pow256;
      match t
      case Unit =>
      case Bool => PushBack(if v.b then 1 else 0);
      case Int(width, signed) =>
        WordFits(width, signed, v.n);
        WriteWord(width, ToWord(width, v.n));
      case Pair(a, b) =>
        WriteValue(a, v.x);
        WriteValue(b, v.y);
        Associates(old(Written()), Write(a, v.x), Write(b, v.y));
      case Many(kind, elem) =>
        WriteWord(8, |v.items|);
        WriteItems(elem, v.items);
        Associates(old(Written()), Bytes(8, |v.items|), WriteAll(elem, v.items));
      case Array(elem, length) => WriteItems(elem, v.items);
    }

    /** `serialize_container`. */
    method WriteItems(t: Type, items: seq<Value>)
      requires AllHaveType(t, items) && usage + |WriteAll(t, items)| <= buffer.Length
      modifies this`usage, buffer
      ensures usage == old(usage) + |WriteAll(t, items)|
      ensures Written() == old(Written()) + WriteAll(t, items)
      decreases t, |items| + 1
    {
      hide HasType, Write;
      ghost var start, all := Written(), WriteAll(t, items);
      var i := 0;
      assert items[0..] == items;
      while i < |items|
        invariant 0 <= i <= |items|
        invariant AllHaveType(t, items[i..])
        invariant usage + |WriteAll(t, items[i..])| == |start| + |all| <= buffer.Length
        invariant Written() + WriteAll(t, items[i..]) == start + all
        decreases |items| - i
      {
        assert items[i..][0] == items[i] && items[i..][1..] == items[i + 1..];
        Associates(Written(), Write(t, items[i]), WriteAll(t, items[i + 1..]));
        WriteValue(t, items[i]);
        i := i + 1;
      }
      assert items[i..] == [] && Written() + [] == Written();
    }

    /** `create`: the declared size is exactly what is written, so `release` finds the buffer full. */
    static method Create(ids: Ids, t: Type, v: Value) returns (m: WriteMessage)
      requires ValidIds(ids) && HasType(t, v) && |Write(t, v)| < Pow256(8)
      ensures fresh(m) && fresh(m.buffer) && m.usage == m.buffer.Length
      ensures m.buffer[..] == MessageOf(ids, t, v)
    {
      hide Write, HasType, Pow256;
      var size := SizeOf(t, v);
      m := new WriteMessage(ids, size);
      m.WriteValue(t, v);
      assert m.buffer[..m.usage] == m.buffer[..];
    }
  }

  lemma WordFits(width: nat, signed: bool, n: int)
    requires InRange(width, signed, n)
    ensures 0 <= ToWord(width, n)
  {
  }

  // -------------------------------------------------------------------------
  // Reading
  // -------------------------------------------------------------------------

  class ReadMessage {
    const buffer: array<byte>
    var offset: nat
    var ids: Ids

    constructor (buffer: array<byte>, offset: nat, ids: Ids)
      ensures this.buffer == buffer && this.offset == offset && this.ids == ids
    {
      this.buffer, this.offset, this.ids := buffer, offset, ids;
    }

    function Rest(): seq<byte>
      requires offset <= buffer.Length
      reads this, buffer
    {
      buffer[offset..]
    }

    method Pop() returns (c: byte)
      requires offset < buffer.Length
      modifies this`offset
      ensures offset == old(offset) + 1 && [c] + Rest() == old(Rest())
    {
      c := buffer[offset];
      offset := offset + 1;
    }

    /** The loop of the integer readers; it stops where the bytes run out. */
    method ReadWord(width: nat) returns (ok: bool, word: nat)
      requires offset <= buffer.Length
      modifies this`offset
      ensures offset <= buffer.Length
      ensures ok == (|old(Rest())| >= width)
      ensures ok ==> word == Word(old(Rest())[..width]) && Rest() == old(Rest())[width..]
    {
      ghost var s := Rest();
      word := 0;
      var i := 0;
      assert Word([]) == 0 && s[..0] == [];
      while i < width
        invariant 0 <= i <= width && i <= |s| && offset == old(offset) + i <= buffer.Length
        invariant word == Word(s[..i])
        decreases width - i
      {
        if offset == buffer.Length {
          return false, word;
        }
        assert s[..i + 1][..i] == s[..i] && s[i] == buffer[offset];
        var c := Pop();
        word := word * 256 + c;
        i := i + 1;
      }
      return true, word;
    }

    /** `read`, for every type. */
    method ReadValue(t: Type) returns (ok: bool, v: Value)
      requires offset <= buffer.Length
      modifies this`offset
      ensures offset <= buffer.Length
      ensures ok == Read(t, old(Rest())).Some?
      ensures ok ==> (v, Rest()) == Read(t, old(Rest())).value
      decreases t, 0
    {
      hide Word, FromWord;
      ok, v := true, Nothing;
      match t
      case Unit =>
      case Bool =>
        if offset == buffer.Length {
          return false, v;
        }
        var c := Pop();
        v := Truth(c != 0);
      case Int(width, signed) =>
        var word;
        ok, word := ReadWord(width);
        v := Number(FromWord(width, signed, word));
      case Pair(a, b) =>
        var x, y;
        ok, x := ReadValue(a);
        if !ok {
          return;
        }
        ok, y := ReadValue(b);
        v := Both(x, y);
      case Many(kind, elem) =>
        var n, items;
        ok, n := ReadWord(8);
        if !ok {
          return;
        }
        ok, items := ReadItems(kind, elem, n);
        v := Items(items);
      case Array(elem, length) =>
        var items;
        ok, items := ReadItems(Sequence, elem, length);
        v := Items(items);
    }

    /** The loops of the container readers. */
    method ReadItems(kind: Kind, t: Type, n: nat) returns (ok: bool, items: seq<Value>)
      requires offset <= buffer.Length
      modifies this`offset
      ensures offset <= buffer.Length
      ensures ok == ReadAll(kind, t, n, [], old(Rest())).Some?
      ensures ok ==> (items, Rest()) == ReadAll(kind, t, n, [], old(Rest())).value
      decreases t, n + 1
    {
      hide Read;
      ghost var all := ReadAll(kind, t, n, [], Rest());
      items := [];
      var i := 0;
      while i < n
        invariant 0 <= i <= n && offset <= buffer.Length
        invariant ReadAll(kind, t, n - i, items, Rest()) == all
        decreases n - i
      {
        var v;
        ok, v := ReadValue(t);
        if !ok {
          return;
        }
        if NewKey(kind, items, v) {
          items := items + [v];
        }
        i := i + 1;
      }
      ok := true;
    }

    /** `parse` of a buffer; it fails where the header cannot be read or has another magic number. */
    static method Parse(buffer: array<byte>) returns (ok: bool, m: ReadMessage)
      ensures fresh(m) && m.buffer == buffer && m.offset <= buffer.Length
      ensures ok == (buffer.Length >= 40 && buffer[..8] == MagicBytes())
      ensures ok ==>
        && m.ids == Ids(Word(buffer[8..16]), Word(buffer[16..24]), Word(buffer[24..32]))
        && m.Rest() == buffer[40..]
    {
      hide Read, Word, MagicBytes, MagicOf, IdsOf;
      HeaderMeans(buffer[..]);
      m := new ReadMessage(buffer, 0, Ids(0, 0, 0));
      assert buffer[0..] == buffer[..];
      var v;
      ok, v := m.ReadValue(HEADER);
      if !ok || MagicOf(v) != Some(MAGIC) {
        return false, m;
      }
      ReadHeader(buffer[..]);
      m := new ReadMessage(buffer, m.offset, IdsOf(v).value);
    }
  }

  function Natural(v: Value): Option<nat> {
    if v.Number? && v.n >= 0 then Some(v.n) else None
  }

  function MagicOf(header: Value): Option<nat> {
    if header.Both? then Natural(header.x) else None
  }

  function IdsOf(header: Value): Option<Ids> {
    if header.Both? && header.y.Both? && header.y.y.Both? && header.y.y.y.Both?
      && Natural(header.y.x).Some? && Natural(header.y.y.x).Some? && Natural(header.y.y.y.x).Some? then
      Some(Ids(header.y.x.n, header.y.y.x.n, header.y.y.y.x.n))
    else None
  }

  function PayloadOf(header: Value): Option<nat> {
    if header.Both? && header.y.Both? && header.y.y.Both? && header.y.y.y.Both? then Natural(header.y.y.y.y) else None
  }

  lemma ReadHeader(s: seq<byte>)
    requires Read(HEADER, s).Some?
    ensures IdsOf(Read(HEADER, s).value.0).Some? && PayloadOf(Read(HEADER, s).value.0).Some?
  {
    ReadHasType(HEADER, s);
    var v := Read(HEADER, s).value.0;
    assert HasType(HEADER, v);
    assert HasType(Pair(WORD, Pair(WORD, Pair(WORD, WORD))), v.y);
    assert HasType(Pair(WORD, Pair(WORD, WORD)), v.y.y);
    assert HasType(Pair(WORD, WORD), v.y.y.y);
  }

  /** A parsed message has the ids and the payload of the message that was created. */
  lemma ParseOfCreate(ids: Ids, t: Type, v: Value)
    requires ValidIds(ids) && HasType(t, v) && |Write(t, v)| < Pow256(8)
    ensures var header := Read(HEADER, MessageOf(ids, t, v));
      && header.Some?
      && MagicOf(header.value.0) == Some(MAGIC)
      && IdsOf(header.value.0) == Some(ids)
      && PayloadOf(header.value.0) == Some(|Write(t, v)|)
      && header.value.1 == Write(t, v)
      && Read(t, header.value.1) == Some((v, []))
  {
    hide Read, Write, HasType, Pow256;
    var size := |Write(t, v)|;
    HeaderHasType(ids, size);
    RoundTrip(HEADER, HeaderOf(ids, size), Write(t, v));
    RoundTrip(t, v, []);
    assert Write(t, v) + [] == Write(t, v);
  }

  // -------------------------------------------------------------------------
  // Messages in a stream
  // -------------------------------------------------------------------------

  /** The next message of a stream: its ids, its payload, and what follows it. */
  function Next(stream: seq<byte>): Option<(Ids, seq<byte>, seq<byte>)> {
    if |stream| < HEADER_SIZE || Read(HEADER, stream[..HEADER_SIZE]).None? then None
    else
      var header := Read(HEADER, stream[..HEADER_SIZE]).value.0;
      if MagicOf(header) != Some(MAGIC) || IdsOf(header).None? || PayloadOf(header).None? then None
      else
        var end := HEADER_SIZE + PayloadOf(header).value;
        if |stream| < end then None
        else Some((IdsOf(header).value, stream[HEADER_SIZE..end], stream[end..]))
  }

  /**
   * There is a message exactly if there are forty bytes, the first eight are the magic number, and as
   * many bytes follow as the last eight say; the words between are its ids.
   */
  lemma NextMeans(stream: seq<byte>)
    ensures Next(stream) ==
      if |stream| >= 40 && stream[..8] == MagicBytes() && |stream| >= 40 + Word(stream[32..40]) then
        var end := 40 + Word(stream[32..40]);
        Some((Ids(Word(stream[8..16]), Word(stream[16..24]), Word(stream[24..32])), stream[40..end], stream[end..]))
      else None
  {
    hide Read, Word, MagicBytes, MagicOf, IdsOf, PayloadOf;
    if |stream| >= 40 {
      StreamHead(stream);
    }
  }

  /** What the header of a stream says. */
  lemma StreamHead(stream: seq<byte>)
    requires |stream| >= 40
    ensures var header := Read(HEADER, stream[..40]);
      && header.Some?
      && (MagicOf(header.value.0) == Some(MAGIC) <==> stream[..8] == MagicBytes())
      && IdsOf(header.value.0) == Some(Ids(Word(stream[8..16]), Word(stream[16..24]), Word(stream[24..32])))
      && PayloadOf(header.value.0) == Some(Word(stream[32..40]))
  {
    hide Read, Word, MagicBytes;
    var s := stream[..40];
    HeaderRead(s);
    WordIsMagic(s[..8]);
    assert s[..8] == stream[..8] && s[8..16] == stream[8..16] && s[16..24] == stream[16..24];
    assert s[24..32] == stream[24..32] && s[32..40] == stream[32..40];
  }

  /** Where the parts of a created message stand. */
  lemma MessageLayout(ids: Ids, t: Type, v: Value)
    requires ValidIds(ids) && HasType(t, v) && |Write(t, v)| < Pow256(8)
    ensures var s := MessageOf(ids, t, v);
      && |s| == 40 + |Write(t, v)|
      && s[..8] == MagicBytes()
      && Word(s[8..16]) == ids.source && Word(s[16..24]) == ids.rpc && Word(s[24..32]) == ids.request
      && Word(s[32..40]) == |Write(t, v)|
      && s[40..] == Write(t, v)
  {
    hide Read, Write, Word, HasType, Pow256, Next, MessageOf;
    var s, p := MessageOf(ids, t, v), Packet(ids, t, v);
    NextOfMessage(p, []);
    assert s + [] == s;
    NextMeans(s);
    MessageSize(ids, t, v);
  }

  lemma MessageSize(ids: Ids, t: Type, v: Value)
    requires ValidIds(ids) && HasType(t, v) && |Write(t, v)| < Pow256(8)
    ensures |MessageOf(ids, t, v)| == 40 + |Write(t, v)|
  {
    hide Write, HasType, Pow256;
    HeaderHasType(ids, |Write(t, v)|);
  }

  /** The header, from its own small buffer. */
  method ParseHead(stream: seq<byte>) returns (ok: bool, header: Value)
    requires |stream| >= HEADER_SIZE
    ensures ok == Read(HEADER, stream[..HEADER_SIZE]).Some?
    ensures ok ==> header == Read(HEADER, stream[..HEADER_SIZE]).value.0
  {
    hide Read;
    var head := new byte[HEADER_SIZE];
    forall i | 0 <= i < HEADER_SIZE {
      head[i] := stream[i];
    }
    assert head[0..] == stream[..HEADER_SIZE];
    var m := new ReadMessage(head, 0, Ids(0, 0, 0));
    ok, header := m.ReadValue(HEADER);
  }

  /** `parse` of a stream: the header first, then as many bytes as it says. */
  method ParseStream(stream: seq<byte>) returns (ok: bool, m: ReadMessage, left: seq<byte>)
    ensures fresh(m) && fresh(m.buffer) && m.offset <= m.buffer.Length
    ensures ok == Next(stream).Some?
    ensures ok ==> Next(stream) == Some((m.ids, m.Rest(), left))
  {
    hide Next, Read, Word, MagicBytes, MagicOf, IdsOf, PayloadOf;
    NextMeans(stream);
    left := stream;
    var body := new byte[0];
    m := new ReadMessage(body, 0, Ids(0, 0, 0));
    if |stream| < HEADER_SIZE {
      return false, m, left;
    }
    var v;
    StreamHead(stream);
    ok, v := ParseHead(stream);
    if !ok || MagicOf(v) != Some(MAGIC) {
      return false, m, left;
    }
    var size := PayloadOf(v).value;
    if |stream| < HEADER_SIZE + size {
      return false, m, left;
    }
    body := new byte[size];
    forall i | 0 <= i < size {
      body[i] := stream[HEADER_SIZE + i];
    }
    assert body[0..] == stream[HEADER_SIZE..HEADER_SIZE + size];
    m := new ReadMessage(body, 0, IdsOf(v).value);
    left := stream[HEADER_SIZE + size..];
  }

  datatype Packet = Packet(ids: Ids, t: Type, v: Value)

  predicate ValidPacket(p: Packet) {
    ValidIds(p.ids) && HasType(p.t, p.v) && |Write(p.t, p.v)| < Pow256(8)
  }

  predicate ValidPackets(ps: seq<Packet>) {
    forall i | 0 <= i < |ps| :: ValidPacket(ps[i])
  }

  function StreamOf(ps: seq<Packet>): seq<byte>
    requires ValidPackets(ps)
  {
    if ps == [] then [] else MessageOf(ps[0].ids, ps[0].t, ps[0].v) + StreamOf(ps[1..])
  }

  /** The values of these types that a stream carries, message by message. */
  function Receive(stream: seq<byte>, types: seq<Type>): Option<seq<(Ids, Value)>> {
    if types == [] then (if stream == [] then Some([]) else None)
    else
      match Next(stream)
      case None => None
      case Some(next) =>
        match Read(types[0], next.1)
        case None => None
        case Some(x) =>
          if x.1 != [] then None
          else
            match Receive(next.2, types[1..])
            case None => None
            case Some(more) => Some([(next.0, x.0)] + more)
  }

  function TypesOf(ps: seq<Packet>): (ts: seq<Type>)
    ensures |ts| == |ps|
  {
    if ps == [] then [] else [ps[0].t] + TypesOf(ps[1..])
  }

  function ValuesOf(ps: seq<Packet>): seq<(Ids, Value)> {
    if ps == [] then [] else [(ps[0].ids, ps[0].v)] + ValuesOf(ps[1..])
  }

  lemma NextOfMessage(p: Packet, left: seq<byte>)
    requires ValidPacket(p)
    ensures Next(MessageOf(p.ids, p.t, p.v) + left) == Some((p.ids, Write(p.t, p.v), left))
  {
    hide Read, Write, HasType, Pow256;
    var payload := Write(p.t, p.v);
    HeaderHasType(p.ids, |payload|);
    var header := HeaderOf(p.ids, |payload|);
    var bytes := Write(HEADER, header);
    var stream := bytes + payload + left;
    RoundTrip(HEADER, header, []);
    assert bytes + [] == bytes == stream[..HEADER_SIZE];
    assert stream[HEADER_SIZE..HEADER_SIZE + |payload|] == payload;
    assert stream[HEADER_SIZE + |payload|..] == left;
  }

  /** Messages written one after the other come out one by one, with their ids and values. */
  lemma {:induction false} StreamRoundTrip(ps: seq<Packet>)
    requires ValidPackets(ps)
    ensures Receive(StreamOf(ps), TypesOf(ps)) == Some(ValuesOf(ps))
  {
    hide Read, Write, HasType, Pow256, Next, MessageOf;
    if ps != [] {
      var p := ps[0];
      NextOfMessage(p, StreamOf(ps[1..]));
      RoundTrip(p.t, p.v, []);
      assert Write(p.t, p.v) + [] == Write(p.t, p.v);
      StreamRoundTrip(ps[1..]);
    }
  }
}
