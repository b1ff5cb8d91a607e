/** The wire format: a universe of types, the bytes of their values, and how they are read. */
module Wire {
  import opened Sequences

  type byte = b: int | 0 <= b < 256

  // -------------------------------------------------------------------------
  // Types and values
  // -------------------------------------------------------------------------

  /** How a container takes an element: at its end, if it is not there yet, or if its key is not. */
  datatype Kind = Sequence | Distinct | Keyed

  /**
   * Structures and argument lists are nested pairs; `Many` are the containers with a length before
   * their elements, and `Array` those of a fixed length.
   */
  datatype Type =
    | Unit
    | Bool
    | Int(width: nat, signed: bool)
    | Pair(fst: Type, snd: Type)
    | Many(kind: Kind, elem: Type)
    | Array(elem: Type, length: nat)

  datatype Value =
    | Nothing
    | Truth(b: bool)
    | Number(n: int)
    | Both(x: Value, y: Value)
    | Items(items: seq<Value>)

  function Key(kind: Kind, v: Value): Value {
    if kind.Keyed? && v.Both? then v.x else v
  }

  predicate NewKey(kind: Kind, acc: seq<Value>, v: Value) {
    kind.Sequence? || forall i | 0 <= i < |acc| :: Key(kind, acc[i]) != Key(kind, v)
  }

  predicate DistinctKeys(kind: Kind, items: seq<Value>) {
    kind.Sequence? || forall i, j | 0 <= i < j < |items| :: Key(kind, items[i]) != Key(kind, items[j])
  }

  function Pow256(n: nat): (p: nat)
    ensures p >= 1
  {
    if n == 0 then 1 else 256 * Pow256(n - 1)
  }

  predicate InRange(width: nat, signed: bool, n: int) {
    if signed then 0 <= 2 * n + Pow256(width) < 2 * Pow256(width) else 0 <= n < Pow256(width)
  }

  predicate HasType(t: Type, v: Value)
    decreases t, 0
  {
    match t
    case Unit => v.Nothing?
    case Bool => v.Truth?
    case Int(width, signed) => v.Number? && InRange(width, signed, v.n)
    case Pair(a, b) => v.Both? && HasType(a, v.x) && HasType(b, v.y)
    case Many(kind, elem) =>
      v.Items? && |v.items| < Pow256(8) && AllHaveType(elem, v.items) && DistinctKeys(kind, v.items)
    case Array(elem, length) => v.Items? && |v.items| == length && AllHaveType(elem, v.items)
  }

  predicate AllHaveType(t: Type, items: seq<Value>)
    decreases t, |items| + 1
  {
    items == [] || (HasType(t, items[0]) && AllHaveType(t, items[1..]))
  }

  // -------------------------------------------------------------------------
  // Integers: big-endian, with two's complement for negative ones
  // -------------------------------------------------------------------------

  function Bytes(width: nat, word: nat): (s: seq<byte>)
    ensures |s| == width
  {
    if width == 0 then [] else Bytes(width - 1, word / 256) + [word % 256]
  }

  function Word(s: seq<byte>): (word: nat)
    ensures word < Pow256(|s|)
  {
    if s == [] then 0 else Word(s[..|s| - 1]) * 256 + s[|s| - 1]
  }

  function ToWord(width: nat, n: int): int {
    if n < 0 then n + Pow256(width) else n
  }

  function FromWord(width: nat, signed: bool, word: nat): int {
    if signed && 2 * word >= Pow256(width) then word - Pow256(width) else word
  }

  lemma {:induction false} WordOfBytes(width: nat, word: nat)
    requires word < Pow256(width)
    ensures Word(Bytes(width, word)) == word
  {
    if width > 0 {
      var s := Bytes(width, word);
      assert s[..width - 1] == Bytes(width - 1, word / 256);
      WordOfBytes(width - 1, word / 256);
    }
  }

  /** The first byte counts most. */
  lemma {:induction false} WordHead(s: seq<byte>)
    requires s != []
    ensures Word(s) == s[0] * Pow256(|s| - 1) + Word(s[1..])
    decreases |s|
  {
    if |s| > 1 {
      var n := |s| - 1;
      WordHead(s[..n]);
      assert s[..n][1..] == s[1..][..n - 1];
      Shifted(s[0], Pow256(n - 1));
    }
  }

  lemma Shifted(top: nat, p: nat)
    ensures (top * p) * 256 == top * (256 * p)
  {
  }

  /** The bytes are determined by the word: every other sequence of this length is another word. */
  lemma {:induction false} BytesOfWord(s: seq<byte>)
    ensures Bytes(|s|, Word(s)) == s
  {
    if s != [] {
      var init, last := s[..|s| - 1], s[|s| - 1];
      BytesOfWord(init);
      Joined(Word(init), last);
      assert Word(s) == Word(init) * 256 + last;
      hide Word;
      assert s == init + [last];
    }
  }

  lemma Joined(word: nat, b: byte)
    ensures (word * 256 + b) / 256 == word && (word * 256 + b) % 256 == b
  {
  }

  lemma TopBit(s: seq<byte>)
    requires s != []
    ensures s[0] >= 128 <==> 2 * Word(s) >= Pow256(|s|)
  {
    hide Word;
    WordHead(s);
    Halves(s[0], Pow256(|s| - 1), Word(s[1..]));
  }

  lemma Halves(top: nat, p: nat, rest: nat)
    requires rest < p
    ensures top >= 128 <==> 2 * (top * p + rest) >= 256 * p
  {
    if top >= 128 {
      assert (top - 128) * p >= 0;
    } else {
      assert (127 - top) * p >= 0;
    }
  }

  /** Two's complement: the top bit of a signed number is its sign. */
  lemma SignBit(width: nat, n: int)
    requires width > 0 && InRange(width, true, n)
    ensures var s := Write(Int(width, true), Number(n));
      && |s| == width && (s[0] >= 128 <==> n < 0)
      && Word(s) == if n < 0 then n + Pow256(width) else n
  {
    hide Bytes, Word;
    var word := ToWord(width, n);
    WordRoundTrip(width, true, n);
    WordOfBytes(width, word);
    TopBit(Bytes(width, word));
  }

  lemma {:induction false} ZeroBytes(n: nat)
    ensures |Bytes(n, 0)| == n && forall i | 0 <= i < n :: Bytes(n, 0)[i] == 0
  {
    if n > 0 {
      ZeroBytes(n - 1);
    }
  }

  /** Every byte but zero reads as true. */
  lemma AnyByteIsTruth(b: byte, rest: seq<byte>)
    ensures Read(Bool, [b] + rest) == Some((Truth(b != 0), rest))
  {
    assert ([b] + rest)[1..] == rest;
  }

  /** A container of two small numbers: its length in eight bytes, and then the numbers. */
  lemma ContainerExample()
    ensures var t, v := Many(Sequence, Int(1, false)), Items([Number(7), Number(9)]);
      HasType(t, v) && Write(t, v) == [0, 0, 0, 0, 0, 0, 0, 2, 7, 9]
  {
    var elem, items := Int(1, false), [Number(7), Number(9)];
    assert Pow256(1) == 256;
    assert Pow256(8) > 2 by {
      assert Pow256(8) == 256 * Pow256(7);
    }
    assert items[1..] == [Number(9)] && items[1..][1..] == [];
    assert Bytes(1, 7) == [7] && Bytes(1, 9) == [9];
    assert AllHaveType(elem, []);
    assert HasType(elem, Number(9)) && AllHaveType(elem, items[1..]);
    assert HasType(elem, Number(7)) && AllHaveType(elem, items);
    assert WriteAll(elem, items[1..]) == [9];
    assert WriteAll(elem, items) == [7, 9];
    ZeroBytes(7);
    assert Bytes(8, 2) == Bytes(7, 0) + [2];
  }

  lemma IntegerExample()
    ensures var t, v := Pair(Bool, Pair(Int(2, false), Int(2, true))), Both(Truth(true), Both(Number(258), Number(-2)));
      HasType(t, v) && Write(t, v) == [1, 1, 2, 255, 254]
  {
    assert Pow256(2) == 0x1_0000 by {
      assert Pow256(1) == 256;
    }
    assert Bytes(2, 258) == [1, 2] by {
      assert Bytes(1, 1) == [1];
    }
    assert Bytes(2, 65534) == [255, 254] by {
      assert Bytes(1, 255) == [255];
    }
  }

  lemma WordRoundTrip(width: nat, signed: bool, n: int)
    requires InRange(width, signed, n)
    ensures 0 <= ToWord(width, n) < Pow256(width)
    ensures FromWord(width, signed, ToWord(width, n)) == n
  {
  }

  // -------------------------------------------------------------------------
  // Writing and reading
  // -------------------------------------------------------------------------

  function Write(t: Type, v: Value): seq<byte>
    requires HasType(t, v)
    decreases t, 0
  {
    match t
    case Unit => []
    case Bool => [if v.b then 1 else 0]
    case Int(width, signed) => Bytes(width, ToWord(width, v.n))
    case Pair(a, b) => Write(a, v.x) + Write(b, v.y)
    case Many(kind, elem) => Bytes(8, |v.items|) + WriteAll(elem, v.items)
    case Array(elem, length) => WriteAll(elem, v.items)
  }

  function WriteAll(t: Type, items: seq<Value>): seq<byte>
    requires AllHaveType(t, items)
    decreases t, |items| + 1
  {
    if items == [] then [] else Write(t, items[0]) + WriteAll(t, items[1..])
  }

  function Put(kind: Kind, acc: seq<Value>, v: Value): seq<Value> {
    if NewKey(kind, acc, v) then acc + [v] else acc
  }

  /** The value at the head of these bytes, and what is left; nothing if the bytes run out. */
  function Read(t: Type, s: seq<byte>): Option<(Value, seq<byte>)>
    decreases t, 0
  {
    match t
    case Unit => Some((Nothing, s))
    case Bool => if s == [] then None else Some((Truth(s[0] != 0), s[1..]))
    case Int(width, signed) =>
      if |s| < width then None
      else Some((Number(FromWord(width, signed, Word(s[..width]))), s[width..]))
    case Pair(a, b) =>
      (match Read(a, s)
       case None => None
       case Some(x) =>
         match Read(b, x.1)
         case None => None
         case Some(y) => Some((Both(x.0, y.0), y.1)))
    case Many(kind, elem) =>
      if |s| < 8 then None else AsItems(ReadAll(kind, elem, Word(s[..8]), [], s[8..]))
    case Array(elem, length) => AsItems(ReadAll(Sequence, elem, length, [], s))
  }

  function AsItems(r: Option<(seq<Value>, seq<byte>)>): Option<(Value, seq<byte>)> {
    if r.None? then None else Some((Items(r.value.0), r.value.1))
  }

  function ReadAll(kind: Kind, t: Type, n: nat, acc: seq<Value>, s: seq<byte>): Option<(seq<Value>, seq<byte>)>
    decreases t, n + 1
  {
    if n == 0 then Some((acc, s))
    else
      match Read(t, s)
      case None => None
      case Some(x) => ReadAll(kind, t, n - 1, Put(kind, acc, x.0), x.1)
  }

  // -------------------------------------------------------------------------
  // The round trip
  // -------------------------------------------------------------------------

  lemma IntRoundTrip(width: nat, signed: bool, n: int, suffix: seq<byte>)
    requires InRange(width, signed, n)
    ensures Read(Int(width, signed), Bytes(width, ToWord(width, n)) + suffix) == Some((Number(n), suffix))
  {
    var word := Bytes(width, ToWord(width, n));
    WordRoundTrip(width, signed, n);
    WordOfBytes(width, ToWord(width, n));
    assert (word + suffix)[..width] == word && (word + suffix)[width..] == suffix;
  }

  /** Reading what was written, before any suffix, gives the value and leaves the suffix. */
  lemma {:induction false} RoundTrip(t: Type, v: Value, suffix: seq<byte>)
    requires HasType(t, v)
    ensures Read(t, Write(t, v) + suffix) == Some((v, suffix))
    decreases t, 0
  {
    hide Bytes, Word, FromWord, Pow256;
    match t
    case Unit => assert [] + suffix == suffix;
    case Bool =>
    case Int(width, signed) => IntRoundTrip(width, signed, v.n, suffix);
    case Pair(a, b) =>
      Associates(Write(a, v.x), Write(b, v.y), suffix);
      RoundTrip(a, v.x, Write(b, v.y) + suffix);
      RoundTrip(b, v.y, suffix);
    case Many(kind, elem) =>
      LengthRoundTrip(|v.items|, WriteAll(elem, v.items) + suffix);
      Associates(Bytes(8, |v.items|), WriteAll(elem, v.items), suffix);
      AllRoundTrip(kind, elem, v.items, [], suffix);
      assert [] + v.items == v.items;
    case Array(elem, length) =>
      AllRoundTrip(Sequence, elem, v.items, [], suffix);
      assert [] + v.items == v.items;
  }

  lemma LengthRoundTrip(n: nat, suffix: seq<byte>)
    requires n < Pow256(8)
    ensures var s := Bytes(8, n) + suffix;
      |s| >= 8 && Word(s[..8]) == n && s[8..] == suffix
  {
    WordOfBytes(8, n);
    assert (Bytes(8, n) + suffix)[..8] == Bytes(8, n);
  }

  lemma {:induction false} AllRoundTrip(
      kind: Kind, t: Type, items: seq<Value>, acc: seq<Value>, suffix: seq<byte>)
    requires AllHaveType(t, items) && DistinctKeys(kind, acc + items)
    ensures ReadAll(kind, t, |items|, acc, WriteAll(t, items) + suffix) == Some((acc + items, suffix))
    decreases t, |items| + 1
  {
    if items == [] {
      assert [] + suffix == suffix && acc + items == acc;
    } else {
      var v, rest := items[0], items[1..];
      Associates(Write(t, v), WriteAll(t, rest), suffix);
      RoundTrip(t, v, WriteAll(t, rest) + suffix);
      PutNew(kind, acc, items);
      assert acc + [v] + rest == acc + items;
      AllRoundTrip(kind, t, rest, acc + [v], suffix);
    }
  }

  lemma PutNew(kind: Kind, acc: seq<Value>, items: seq<Value>)
    requires items != [] && DistinctKeys(kind, acc + items)
    ensures Put(kind, acc, items[0]) == acc + [items[0]]
  {
    if !kind.Sequence? {
      var all := acc + items;
      assert all[|acc|] == items[0];
      assert forall i | 0 <= i < |acc| :: all[i] == acc[i];
    }
  }

  /** What a reader makes of its bytes does not depend on what follows them. */
  lemma {:induction false} ReadExtends(t: Type, s: seq<byte>, more: seq<byte>)
    requires Read(t, s).Some?
    ensures Read(t, s + more) == Some((Read(t, s).value.0, Read(t, s).value.1 + more))
    decreases t, 0
  {
    hide Word, FromWord, Pow256;
    match t
    case Unit =>
    case Bool => assert (s + more)[1..] == s[1..] + more;
    case Int(width, signed) =>
      assert (s + more)[..width] == s[..width] && (s + more)[width..] == s[width..] + more;
    case Pair(a, b) =>
      ReadExtends(a, s, more);
      ReadExtends(b, Read(a, s).value.1, more);
    case Many(kind, elem) =>
      assert (s + more)[..8] == s[..8] && (s + more)[8..] == s[8..] + more;
      ReadAllExtends(kind, elem, Word(s[..8]), [], s[8..], more);
    case Array(elem, length) => ReadAllExtends(Sequence, elem, length, [], s, more);
  }

  lemma {:induction false} ReadAllExtends(
      kind: Kind, t: Type, n: nat, acc: seq<Value>, s: seq<byte>, more: seq<byte>)
    requires ReadAll(kind, t, n, acc, s).Some?
    ensures var r := ReadAll(kind, t, n, acc, s).value;
      ReadAll(kind, t, n, acc, s + more) == Some((r.0, r.1 + more))
    decreases t, n + 1
  {
    hide Put;
    if n > 0 {
      var x := Read(t, s).value;
      ReadExtends(t, s, more);
      ReadAllExtends(kind, t, n - 1, Put(kind, acc, x.0), x.1, more);
    }
  }

  /** A value whose bytes are cut off anywhere is not read. */
  lemma CutOff(t: Type, v: Value, n: nat)
    requires HasType(t, v) && n < |Write(t, v)|
    ensures Read(t, Write(t, v)[..n]) == None
  {
    hide Read, Write, HasType;
    var s := Write(t, v);
    RoundTrip(t, v, []);
    assert s + [] == s && s[..n] + s[n..] == s;
    if Read(t, s[..n]).Some? {
      ReadExtends(t, s[..n], s[n..]);
    }
  }

  /**
   * What a container does with an element when it is read: a sequence takes it; a set takes it unless
   * it has an equal one; and a map takes it unless it has its key, so that the first one stays.
   */
  lemma PutMeans(kind: Kind, acc: seq<Value>, v: Value)
    ensures kind.Sequence? ==> Put(kind, acc, v) == acc + [v]
    ensures kind.Distinct? ==> Put(kind, acc, v) == if v in acc then acc else acc + [v]
    ensures kind.Keyed? && v.Both? ==>
      Put(kind, acc, v) ==
        if exists i :: 0 <= i < |acc| && acc[i] == (if acc[i].Both? then Both(v.x, acc[i].y) else v.x) then acc
        else acc + [v]
  {
  }

  /** No value's bytes begin with those of another value of the same type. */
  lemma Injective(t: Type, v: Value, w: Value, s: seq<byte>, r: seq<byte>)
    requires HasType(t, v) && HasType(t, w)
    requires Write(t, v) + s == Write(t, w) + r
    ensures v == w && s == r
  {
    RoundTrip(t, v, s);
    RoundTrip(t, w, r);
  }

  // -------------------------------------------------------------------------
  // What reading gives
  // -------------------------------------------------------------------------

  /** Whatever the bytes are, a value that is read has the type. */
  lemma {:induction false} ReadHasType(t: Type, s: seq<byte>)
    requires Read(t, s).Some?
    ensures HasType(t, Read(t, s).value.0)
    decreases t, 0
  {
    hide Pow256;
    match t
    case Unit =>
    case Bool =>
    case Int(width, signed) => WordInRange(width, signed, s[..width]);
    case Pair(a, b) =>
      ReadHasType(a, s);
      ReadHasType(b, Read(a, s).value.1);
    case Many(kind, elem) => ReadAllHaveType(kind, elem, Word(s[..8]), [], s[8..]);
    case Array(elem, length) =>
      ReadAllHaveType(Sequence, elem, length, [], s);
      ReadAllLength(elem, length, [], s);
  }

  lemma WordInRange(width: nat, signed: bool, s: seq<byte>)
    requires |s| == width
    ensures InRange(width, signed, FromWord(width, signed, Word(s)))
  {
  }

  lemma {:induction false} AllHaveTypeAppend(t: Type, items: seq<Value>, v: Value)
    requires AllHaveType(t, items) && HasType(t, v)
    ensures AllHaveType(t, items + [v])
    decreases |items|
  {
    hide HasType;
    if items == [] {
      assert [v][1..] == [];
    } else {
      assert (items + [v])[1..] == items[1..] + [v];
      AllHaveTypeAppend(t, items[1..], v);
    }
  }

  lemma {:induction false} ReadAllHaveType(kind: Kind, t: Type, n: nat, acc: seq<Value>, s: seq<byte>)
    requires ReadAll(kind, t, n, acc, s).Some? && AllHaveType(t, acc) && DistinctKeys(kind, acc)
    ensures var items := ReadAll(kind, t, n, acc, s).value.0;
      AllHaveType(t, items) && DistinctKeys(kind, items) && |items| <= |acc| + n
    decreases t, n + 1
  {
    hide HasType, DistinctKeys;
    if n > 0 {
      var x := Read(t, s).value;
      ReadHasType(t, s);
      AllHaveTypeAppend(t, acc, x.0);
      PutDistinct(kind, acc, x.0);
      ReadAllHaveType(kind, t, n - 1, Put(kind, acc, x.0), x.1);
    }
  }

  lemma PutDistinct(kind: Kind, acc: seq<Value>, v: Value)
    requires DistinctKeys(kind, acc)
    ensures DistinctKeys(kind, Put(kind, acc, v))
  {
  }

  lemma {:induction false} ReadAllLength(t: Type, n: nat, acc: seq<Value>, s: seq<byte>)
    requires ReadAll(Sequence, t, n, acc, s).Some?
    ensures |ReadAll(Sequence, t, n, acc, s).value.0| == |acc| + n
    decreases n
  {
    if n > 0 {
      var x := Read(t, s).value;
      ReadAllLength(t, n - 1, Put(Sequence, acc, x.0), x.1);
    }
  }
}
