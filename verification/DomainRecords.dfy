/** The records of an answer section, and the walk over those that a query asked for. */
module DomainRecords {
  import opened DomainName
  import P = DomainPacket
  import opened Sequences

  const CNAME := 5
  const ANY := 255

  /** A record with the place of its data in the packet. */
  datatype Record = Record(name: Name, typ: nat, cls: nat, ttl: nat, start: nat, stop: nat)

  function Get16(pkt: seq<byte>, i: nat): nat
    requires i + 2 <= |pkt|
  {
    var hi: int := pkt[i];
    hi * 256 + pkt[i + 1]
  }

  function Get32(pkt: seq<byte>, i: nat): nat
    requires i + 4 <= |pkt|
  {
    Get16(pkt, i) * 65536 + Get16(pkt, i + 2)
  }

  /** The record at `pos`: its name, its fixed fields, and its data, all inside the packet. */
  function RecordAt(pkt: seq<byte>, pos: nat): (r: Option<Record>)
    ensures r.Some? ==> ValidLabels(r.value.name) && pos < r.value.start <= r.value.stop <= |pkt|
  {
    var o := P.Expand(pkt, pos, P.JUMP_LIMIT, MAX_DN);
    if !o.Good? then None
    else
      P.SkipAgrees(pkt, pos, P.JUMP_LIMIT, MAX_DN);
      var cur := P.StopOf(pkt, pos).next;
      if cur + 10 > |pkt| || cur + 10 + Get16(pkt, cur + 8) > |pkt| then None
      else
        Some(Record(
          o.name, Get16(pkt, cur), Get16(pkt, cur + 2), Get32(pkt, cur + 4),
          cur + 10, cur + 10 + Get16(pkt, cur + 8)))
  }

  /** The name that an alias stands for: it must take up the record's data exactly. */
  function AliasOf(pkt: seq<byte>, r: Record): (a: Option<Name>)
    ensures a.Some? ==> ValidLabels(a.value)
  {
    var o := P.Expand(pkt, r.start, P.JUMP_LIMIT, MAX_DN);
    if !o.Good? then None
    else
      P.SkipAgrees(pkt, r.start, P.JUMP_LIMIT, MAX_DN);
      if P.StopOf(pkt, r.start).next != r.stop then None else Some(o.name)
  }

  // -------------------------------------------------------------------------
  // The bytes of a record
  // -------------------------------------------------------------------------

  /** Section 4.1.3 of RFC 1035: type, class, time to live and length of the data, high bytes first. */
  function FixedBytes(typ: nat, cls: nat, ttl: nat, size: nat): (s: seq<byte>)
    requires typ < 0x1_0000 && cls < 0x1_0000 && ttl < 0x1_0000_0000 && size < 0x1_0000
    ensures |s| == 10
  {
    [typ / 256, typ % 256, cls / 256, cls % 256,
     ttl / 0x100_0000, ttl / 0x1_0000 % 256, ttl / 256 % 256, ttl % 256,
     size / 256, size % 256]
  }

  /** Reading the fixed bytes gives the fields. */
  lemma FieldsRead(pkt: seq<byte>, n: nat, typ: nat, cls: nat, ttl: nat, size: nat)
    requires typ < 0x1_0000 && cls < 0x1_0000 && ttl < 0x1_0000_0000 && size < 0x1_0000
    requires n + 10 <= |pkt| && pkt[n..n + 10] == FixedBytes(typ, cls, ttl, size)
    ensures Get16(pkt, n) == typ && Get16(pkt, n + 2) == cls && Get32(pkt, n + 4) == ttl && Get16(pkt, n + 8) == size
  {
    var s := pkt[n..n + 10];
    assert s[0] == pkt[n] && s[1] == pkt[n + 1] && s[2] == pkt[n + 2] && s[3] == pkt[n + 3];
    assert s[4] == pkt[n + 4] && s[5] == pkt[n + 5] && s[6] == pkt[n + 6] && s[7] == pkt[n + 7];
    assert s[8] == pkt[n + 8] && s[9] == pkt[n + 9];
    FourBytes(ttl);
  }

  lemma FourBytes(ttl: nat)
    requires ttl < 0x1_0000_0000
    ensures ((ttl / 0x100_0000) * 256 + ttl / 0x1_0000 % 256) * 65536 + (ttl / 256 % 256) * 256 + ttl % 256 == ttl
  {
    assert ttl / 0x1_0000 / 256 == ttl / 0x100_0000;
    assert ttl / 256 / 256 == ttl / 0x1_0000;
  }

  /** And the fields that are read have these fixed bytes. */
  lemma FieldsAreBytes(pkt: seq<byte>, n: nat)
    requires n + 10 <= |pkt|
    ensures var typ, cls, ttl, size := Get16(pkt, n), Get16(pkt, n + 2), Get32(pkt, n + 4), Get16(pkt, n + 8);
      && typ < 0x1_0000 && cls < 0x1_0000 && ttl < 0x1_0000_0000 && size < 0x1_0000
      && pkt[n..n + 10] == FixedBytes(typ, cls, ttl, size)
  {
    HighFirst(pkt[n], pkt[n + 1], pkt[n + 2], pkt[n + 3]);
    HighFirst(pkt[n + 4], pkt[n + 5], pkt[n + 6], pkt[n + 7]);
  }

  lemma HighFirst(a: byte, b: byte, c: byte, d: byte)
    ensures var n: nat := (a * 256 + b) * 65536 + (c * 256 + d);
      n < 0x1_0000_0000 && n / 0x100_0000 == a && n / 0x1_0000 % 256 == b && n / 256 % 256 == c && n % 256 == d
  {
  }

  /**
   * The record at `pos`, whether its name is compressed or not: behind a name that can be read, these
   * fixed bytes give these fields, and the record is refused exactly if its data are not all there.
   */
  lemma RecordMeans(pkt: seq<byte>, pos: nat, n: nat, typ: nat, cls: nat, ttl: nat, size: nat)
    requires typ < 0x1_0000 && cls < 0x1_0000 && ttl < 0x1_0000_0000 && size < 0x1_0000
    requires P.Expand(pkt, pos, P.JUMP_LIMIT, MAX_DN).Good?
    requires !P.StopOf(pkt, pos).Open? && P.StopOf(pkt, pos).next == n
    requires n + 10 <= |pkt| && pkt[n..n + 10] == FixedBytes(typ, cls, ttl, size)
    ensures RecordAt(pkt, pos) ==
      if n + 10 + size > |pkt| then None
      else Some(Record(P.Expand(pkt, pos, P.JUMP_LIMIT, MAX_DN).name, typ, cls, ttl, n + 10, n + 10 + size))
  {
    hide P.Expand, P.StopOf, Get16, Get32, FixedBytes;
    P.SkipAgrees(pkt, pos, P.JUMP_LIMIT, MAX_DN);
    FieldsRead(pkt, n, typ, cls, ttl, size);
  }

  /** Without a name that can be read, or without all of the fixed bytes behind it, there is no record. */
  lemma RecordCutOff(pkt: seq<byte>, pos: nat)
    ensures !P.Expand(pkt, pos, P.JUMP_LIMIT, MAX_DN).Good? ==> RecordAt(pkt, pos).None?
    ensures !P.StopOf(pkt, pos).Open? && P.StopOf(pkt, pos).next + 10 > |pkt| ==> RecordAt(pkt, pos).None?
  {
    hide P.Expand, P.StopOf, Get16, Get32;
  }

  /** The bytes of a whole record, with its name not compressed. */
  function RecordBytes(name: Name, typ: nat, cls: nat, ttl: nat, data: seq<byte>): seq<byte>
    requires WellFormed(name) && typ < 0x1_0000 && cls < 0x1_0000 && ttl < 0x1_0000_0000 && |data| < 0x1_0000
  {
    Encode(name) + FixedBytes(typ, cls, ttl, |data|) + data
  }

  /** A record that was written is read, at any place in any packet. */
  lemma WrittenRecord(pkt: seq<byte>, pos: nat, name: Name, typ: nat, cls: nat, ttl: nat, data: seq<byte>)
    requires WellFormed(name) && typ < 0x1_0000 && cls < 0x1_0000 && ttl < 0x1_0000_0000 && |data| < 0x1_0000
    requires pos <= |pkt| && RecordBytes(name, typ, cls, ttl, data) <= pkt[pos..]
    ensures var n := pos + |Encode(name)| + 10;
      && n + |data| <= |pkt| && pkt[n..n + |data|] == data
      && RecordAt(pkt, pos) == Some(Record(name, typ, cls, ttl, n, n + |data|))
  {
    hide P.Expand, P.StopOf, Encode, FixedBytes, RecordAt;
    var ahead, n := pkt[pos..], |Encode(name)|;
    var fields := FixedBytes(typ, cls, ttl, |data|);
    assert ahead[..n] == Encode(name);
    assert ahead[n..n + 10] == fields && pkt[pos + n..pos + n + 10] == ahead[n..n + 10];
    assert ahead[n + 10..n + 10 + |data|] == data && pkt[pos + n + 10..pos + n + 10 + |data|] == data;
    BodyFits(name);
    P.PlainName(pkt, pos, name, P.JUMP_LIMIT, MAX_DN);
    RecordMeans(pkt, pos, pos + n, typ, cls, ttl, |data|);
  }

  lemma BodyFits(name: Name)
    requires WellFormed(name)
    ensures |Body(name)| < MAX_DN
  {
  }

  /** The data of an alias is the name that it stands for, and nothing more. */
  lemma WrittenAlias(pkt: seq<byte>, r: Record, a: Name, rest: seq<byte>)
    requires r.start <= r.stop <= |pkt| && WellFormed(a) && pkt[r.start..r.stop] == Encode(a) + rest
    ensures AliasOf(pkt, r) == if rest == [] then Some(a) else None
  {
    hide P.Expand, P.StopOf, Encode;
    assert Encode(a) <= pkt[r.start..] by {
      assert pkt[r.start..][..r.stop - r.start] == pkt[r.start..r.stop];
    }
    BodyFits(a);
    P.PlainName(pkt, r.start, a, P.JUMP_LIMIT, MAX_DN);
  }

  // -------------------------------------------------------------------------
  // The walk
  // -------------------------------------------------------------------------

  /** The state of the walk: `left` records from `cur` on; a zero type or class stands for any. */
  datatype Cursor = Cursor(cur: nat, left: nat, qdn: Option<Name>, qtyp: nat, qcls: nat, nrr: nat, ttl: nat)

  datatype Outcome = Found(r: Record, c: Cursor) | Done(c: Cursor) | Broken

  predicate Named(qdn: Option<Name>, r: Record) {
    qdn.None? || SameName(qdn.value, r.name)
  }

  predicate Wanted(c: Cursor, r: Record) {
    (c.qcls == 0 || c.qcls == r.cls) && (c.qtyp == 0 || c.qtyp == r.typ)
  }

  function Min(a: nat, b: nat): nat {
    if a > b then b else a
  }

  function Past(c: Cursor, r: Record): Cursor
    requires c.left > 0
  {
    c.(cur := r.stop, left := c.left - 1)
  }

  /** An alias of the name asked for, before any record was found. */
  predicate Follows(c: Cursor, r: Record) {
    c.qdn.Some? && r.typ == CNAME && c.nrr == 0
  }

  /** `dns_nextrr`. */
  function Next(pkt: seq<byte>, c: Cursor): Outcome
    decreases c.left
  {
    if c.left == 0 then Done(c)
    else
      match RecordAt(pkt, c.cur)
      case None => Broken
      case Some(r) =>
        if !Named(c.qdn, r) then Next(pkt, Past(c, r))
        else if Wanted(c, r) then Found(r, Past(c, r).(nrr := c.nrr + 1, ttl := Min(c.ttl, r.ttl)))
        else if Follows(c, r) then
          (match AliasOf(pkt, r)
           case None => Broken
           case Some(a) => Next(pkt, Past(c, r).(qdn := Some(a), ttl := Min(c.ttl, r.ttl))))
        else Next(pkt, Past(c, r))
  }

  lemma {:induction false} NextShrinks(pkt: seq<byte>, c: Cursor)
    ensures Next(pkt, c).Found? ==>
      var n := Next(pkt, c).c;
      n.left < c.left && n.nrr == c.nrr + 1 && n.qtyp == c.qtyp && n.qcls == c.qcls && n.qdn.Some? == c.qdn.Some?
    decreases c.left
  {
    hide RecordAt, AliasOf, Named, Wanted;
    if c.left > 0 && RecordAt(pkt, c.cur).Some? {
      var r := RecordAt(pkt, c.cur).value;
      NextShrinks(pkt, Past(c, r));
      if AliasOf(pkt, r).Some? {
        NextShrinks(pkt, Past(c, r).(qdn := AliasOf(pkt, r), ttl := Min(c.ttl, r.ttl)));
      }
    }
  }

  // -------------------------------------------------------------------------
  // What the walk finds
  // -------------------------------------------------------------------------

  /** All records of the section, if they can all be read. */
  function Records(pkt: seq<byte>, pos: nat, n: nat): (rs: Option<seq<Record>>)
    ensures rs.Some? ==> |rs.value| == n
    decreases n
  {
    if n == 0 then Some([])
    else
      match RecordAt(pkt, pos)
      case None => None
      case Some(r) =>
        match Records(pkt, r.stop, n - 1)
        case None => None
        case Some(more) => Some([r] + more)
  }

  /** The results of calling `dns_nextrr` until it finds nothing more. */
  function All(pkt: seq<byte>, c: Cursor): seq<Record>
    decreases c.left
  {
    match Next(pkt, c)
    case Found(r, n) =>
      NextShrinks(pkt, c);
      [r] + All(pkt, n)
    case _ => []
  }

  function Filter(c: Cursor, rs: seq<Record>): seq<Record> {
    if rs == [] then []
    else (if Named(c.qdn, rs[0]) && Wanted(c, rs[0]) then [rs[0]] else []) + Filter(c, rs[1..])
  }

  /**
   * What the filter keeps, in order: the records with the name asked for, if there is one, but for the
   * case of letters, and with the type and the class asked for, where zero stands for any.
   */
  lemma {:induction false} FilterMeans(c: Cursor, a: seq<Record>, r: Record, b: seq<Record>)
    ensures Filter(c, []) == []
    ensures Filter(c, a + [r] + b) ==
      Filter(c, a)
      + (if (c.qdn.Some? ==> SameName(c.qdn.value, r.name)) && c.qtyp in {0, r.typ} && c.qcls in {0, r.cls} then [r]
         else [])
      + Filter(c, b)
    decreases |a|
  {
    hide SameName;
    var rs := a + [r] + b;
    if a == [] {
      assert rs[0] == r && rs[1..] == b;
    } else {
      assert rs[0] == a[0] && rs[1..] == a[1..] + [r] + b;
      FilterMeans(c, a[1..], r, b);
    }
  }

  /** The filter looks at the name, the type and the class only. */
  lemma {:induction false} FilterSame(c: Cursor, d: Cursor, rs: seq<Record>)
    requires c.qdn == d.qdn && c.qtyp == d.qtyp && c.qcls == d.qcls
    ensures Filter(c, rs) == Filter(d, rs)
  {
    hide Named;
    if rs != [] {
      FilterSame(c, d, rs[1..]);
    }
  }

  /** No record has the name asked for and makes it an alias, unless aliases are what is asked for. */
  predicate NoAlias(c: Cursor, rs: seq<Record>) {
    forall i | 0 <= i < |rs| ::
      c.qdn.Some? && SameName(c.qdn.value, rs[i].name) && rs[i].typ == 5 ==>
        c.qtyp in {0, 5} && c.qcls in {0, rs[i].cls}
  }

  /**
   * Once a record was found, or if no name was given or it has no alias, the walk is a filter of the
   * section.
   */
  lemma {:induction false} WalkIsFilter(pkt: seq<byte>, c: Cursor)
    requires Records(pkt, c.cur, c.left).Some?
    requires c.nrr > 0 || c.qdn.None? || NoAlias(c, Records(pkt, c.cur, c.left).value)
    ensures All(pkt, c) == Filter(c, Records(pkt, c.cur, c.left).value)
    decreases c.left
  {
    hide RecordAt, AliasOf, SameName;
    if c.left > 0 {
      var r := RecordAt(pkt, c.cur).value;
      var rs := Records(pkt, c.cur, c.left).value;
      var more := Records(pkt, r.stop, c.left - 1).value;
      assert rs == [r] + more && rs[0] == r && rs[1..] == more;
      assert NoAlias(c, rs) ==> NoAlias(Past(c, r), more);
      if Named(c.qdn, r) && Wanted(c, r) {
        var n := Past(c, r).(nrr := c.nrr + 1, ttl := Min(c.ttl, r.ttl));
        WalkIsFilter(pkt, n);
        FilterSame(c, n, more);
      } else {
        WalkIsFilter(pkt, Past(c, r));
        FilterSame(c, Past(c, r), more);
        SkipOne(pkt, c, r);
      }
    }
  }

  lemma SkipOne(pkt: seq<byte>, c: Cursor, r: Record)
    requires c.left > 0 && RecordAt(pkt, c.cur) == Some(r)
    requires Named(c.qdn, r) ==> !Wanted(c, r) && !Follows(c, r)
    ensures All(pkt, c) == All(pkt, Past(c, r))
  {
    hide RecordAt, AliasOf, Named, Wanted;
  }

  /**
   * If nothing is what was asked for before a record that makes the name an alias, the walk goes on
   * behind that record as a walk for the name that the alias stands for.
   */
  lemma {:induction false} WalkFollowsAlias(pkt: seq<byte>, c: Cursor, k: nat)
    requires Records(pkt, c.cur, c.left).Some? && k < |Records(pkt, c.cur, c.left).value|
    requires var rs := Records(pkt, c.cur, c.left).value;
      && c.nrr == 0 && c.qdn.Some?
      && (forall i | 0 <= i < k ::
           SameName(c.qdn.value, rs[i].name) ==>
             rs[i].typ != 5 && !(c.qtyp in {0, rs[i].typ} && c.qcls in {0, rs[i].cls}))
      && SameName(c.qdn.value, rs[k].name) && rs[k].typ == 5 && AliasOf(pkt, rs[k]).Some?
      && !(c.qtyp in {0, 5} && c.qcls in {0, rs[k].cls})
    ensures var rs := Records(pkt, c.cur, c.left).value;
      k < c.left &&
      All(pkt, c) == All(pkt, Cursor(
        rs[k].stop, c.left - k - 1, AliasOf(pkt, rs[k]), c.qtyp, c.qcls, 0,
        if rs[k].ttl < c.ttl then rs[k].ttl else c.ttl))
    decreases k
  {
    hide RecordAt, AliasOf, SameName;
    var r := RecordAt(pkt, c.cur).value;
    var rs := Records(pkt, c.cur, c.left).value;
    assert rs == [r] + Records(pkt, r.stop, c.left - 1).value && rs[0] == r;
    if k == 0 {
      FollowOne(pkt, c, r);
    } else {
      assert rs[1..] == Records(pkt, r.stop, c.left - 1).value;
      SkipOne(pkt, c, r);
      WalkFollowsAlias(pkt, Past(c, r), k - 1);
    }
  }

  /** If the data of that record are no name, or not only a name, the walk fails. */
  lemma {:induction false} AliasBreaks(pkt: seq<byte>, c: Cursor, k: nat)
    requires Records(pkt, c.cur, c.left).Some? && k < |Records(pkt, c.cur, c.left).value|
    requires var rs := Records(pkt, c.cur, c.left).value;
      && c.nrr == 0 && c.qdn.Some?
      && (forall i | 0 <= i < k ::
           SameName(c.qdn.value, rs[i].name) ==>
             rs[i].typ != 5 && !(c.qtyp in {0, rs[i].typ} && c.qcls in {0, rs[i].cls}))
      && SameName(c.qdn.value, rs[k].name) && rs[k].typ == 5 && AliasOf(pkt, rs[k]).None?
      && !(c.qtyp in {0, 5} && c.qcls in {0, rs[k].cls})
    ensures Next(pkt, c) == Broken
    decreases k
  {
    hide RecordAt, AliasOf, SameName;
    var r := RecordAt(pkt, c.cur).value;
    var rs := Records(pkt, c.cur, c.left).value;
    assert rs == [r] + Records(pkt, r.stop, c.left - 1).value && rs[0] == r;
    if k > 0 {
      assert rs[1..] == Records(pkt, r.stop, c.left - 1).value;
      AliasBreaks(pkt, Past(c, r), k - 1);
    }
  }

  lemma FollowOne(pkt: seq<byte>, c: Cursor, r: Record)
    requires c.left > 0 && RecordAt(pkt, c.cur) == Some(r)
    requires Named(c.qdn, r) && !Wanted(c, r) && Follows(c, r) && AliasOf(pkt, r).Some?
    ensures All(pkt, c) == All(pkt, Past(c, r).(qdn := AliasOf(pkt, r), ttl := Min(c.ttl, r.ttl)))
  {
    hide RecordAt, AliasOf, Named, Wanted;
  }

  /** Where `n` records from `pos` on end. */
  function EndOf(pkt: seq<byte>, pos: nat, n: nat): nat
    decreases n
  {
    if n == 0 || RecordAt(pkt, pos).None? then pos else EndOf(pkt, RecordAt(pkt, pos).value.stop, n - 1)
  }

  /** If nothing in a readable section is what was asked for, the walk ends behind it, and says so. */
  lemma {:induction false} NothingMore(pkt: seq<byte>, c: Cursor)
    requires Records(pkt, c.cur, c.left).Some? && Filter(c, Records(pkt, c.cur, c.left).value) == []
    requires c.nrr > 0 || c.qdn.None? || NoAlias(c, Records(pkt, c.cur, c.left).value)
    ensures Next(pkt, c) == Done(c.(cur := EndOf(pkt, c.cur, c.left), left := 0))
    decreases c.left
  {
    hide RecordAt, AliasOf, SameName;
    if c.left > 0 {
      var r := RecordAt(pkt, c.cur).value;
      var rs := Records(pkt, c.cur, c.left).value;
      var more := Records(pkt, r.stop, c.left - 1).value;
      assert rs == [r] + more && rs[0] == r && rs[1..] == more;
      assert NoAlias(c, rs) ==> NoAlias(Past(c, r), more);
      FilterSame(c, Past(c, r), more);
      NothingMore(pkt, Past(c, r));
    }
  }

  /** If a record cannot be read, and none before it has the name asked for, the walk fails. */
  lemma {:induction false} WalkBreaks(pkt: seq<byte>, c: Cursor, k: nat)
    requires k < c.left && c.qdn.Some? && Records(pkt, c.cur, k).Some?
    requires forall i | 0 <= i < k :: !SameName(c.qdn.value, Records(pkt, c.cur, k).value[i].name)
    requires RecordAt(pkt, EndOf(pkt, c.cur, k)).None?
    ensures Next(pkt, c) == Broken
    decreases k
  {
    hide RecordAt, AliasOf, SameName;
    if k > 0 {
      var r := RecordAt(pkt, c.cur).value;
      var rs, more := Records(pkt, c.cur, k).value, Records(pkt, r.stop, k - 1).value;
      assert rs == [r] + more && rs[0] == r && rs[1..] == more;
      WalkBreaks(pkt, Past(c, r), k - 1);
    }
  }

  /** The aliases that the walk follows before it finds its first record. */
  function Chain(pkt: seq<byte>, c: Cursor): seq<Record>
    decreases c.left
  {
    if c.left == 0 || RecordAt(pkt, c.cur).None? then []
    else
      var r := RecordAt(pkt, c.cur).value;
      if !Named(c.qdn, r) then Chain(pkt, Past(c, r))
      else if Wanted(c, r) then []
      else if Follows(c, r) then
        (if AliasOf(pkt, r).None? then [r]
         else [r] + Chain(pkt, Past(c, r).(qdn := AliasOf(pkt, r), ttl := Min(c.ttl, r.ttl))))
      else Chain(pkt, Past(c, r))
  }

  /** Each alias has the name that the one before it stands for. */
  predicate Links(pkt: seq<byte>, qdn: Option<Name>, chain: seq<Record>, end: Option<Name>)
    decreases |chain|
  {
    if chain == [] then end == qdn
    else
      && Named(qdn, chain[0]) && chain[0].typ == CNAME
      && AliasOf(pkt, chain[0]).Some?
      && Links(pkt, AliasOf(pkt, chain[0]), chain[1..], end)
  }

  function MinTtl(ttl: nat, rs: seq<Record>): nat {
    if rs == [] then ttl else MinTtl(Min(ttl, rs[0].ttl), rs[1..])
  }

  lemma {:induction false} MinTtlMeans(ttl: nat, rs: seq<Record>)
    ensures MinTtl(ttl, rs) <= ttl
    ensures forall i | 0 <= i < |rs| :: MinTtl(ttl, rs) <= rs[i].ttl
    ensures MinTtl(ttl, rs) == ttl || exists i | 0 <= i < |rs| :: MinTtl(ttl, rs) == rs[i].ttl
  {
    if rs != [] {
      MinTtlMeans(Min(ttl, rs[0].ttl), rs[1..]);
      if i :| 0 <= i < |rs[1..]| && MinTtl(ttl, rs) == rs[1..][i].ttl {
        assert MinTtl(ttl, rs) == rs[i + 1].ttl;
      }
    }
  }

  /**
   * A record that is found has the name at the end of the chain of aliases from the name asked for,
   * and the wanted type and class; the time to live is the least on the way.
   */
  lemma {:induction false} FoundByAliases(pkt: seq<byte>, c: Cursor)
    requires Next(pkt, c).Found?
    ensures var f := Next(pkt, c);
      && Links(pkt, c.qdn, Chain(pkt, c), f.c.qdn)
      && (f.c.qdn.None? || SameName(f.c.qdn.value, f.r.name))
      && c.qtyp in {0, f.r.typ} && c.qcls in {0, f.r.cls}
      && f.c.ttl == MinTtl(c.ttl, Chain(pkt, c) + [f.r])
      && (c.nrr > 0 ==> Chain(pkt, c) == [])
    decreases c.left
  {
    hide RecordAt, AliasOf, SameName, Min;
    var r := RecordAt(pkt, c.cur).value;
    var f := Next(pkt, c).r;
    if Named(c.qdn, r) && Wanted(c, r) {
      assert ([] + [r])[1..] == [];
    } else if Named(c.qdn, r) && Follows(c, r) {
      var n := Past(c, r).(qdn := AliasOf(pkt, r), ttl := Min(c.ttl, r.ttl));
      FoundByAliases(pkt, n);
      assert ([r] + Chain(pkt, n))[1..] == Chain(pkt, n);
      assert ([r] + Chain(pkt, n) + [f])[1..] == Chain(pkt, n) + [f];
    } else {
      FoundByAliases(pkt, Past(c, r));
    }
  }

  // -------------------------------------------------------------------------
  // A section that was written
  // -------------------------------------------------------------------------

  datatype Entry = Entry(name: Name, typ: nat, cls: nat, ttl: nat, data: seq<byte>)

  predicate ValidEntry(e: Entry) {
    WellFormed(e.name) && e.typ < 0x1_0000 && e.cls < 0x1_0000 && e.ttl < 0x1_0000_0000 && |e.data| < 0x1_0000
  }

  function SectionBytes(es: seq<Entry>): seq<byte>
    requires forall i | 0 <= i < |es| :: ValidEntry(es[i])
  {
    if es == [] then []
    else
      assert ValidEntry(es[0]);
      RecordBytes(es[0].name, es[0].typ, es[0].cls, es[0].ttl, es[0].data) + SectionBytes(es[1..])
  }

  /** The record is this entry, and its data are in the packet where it says. */
  predicate IsEntry(pkt: seq<byte>, r: Record, e: Entry) {
    && r.name == e.name && r.typ == e.typ && r.cls == e.cls && r.ttl == e.ttl
    && r.start <= r.stop <= |pkt| && pkt[r.start..r.stop] == e.data
  }

  /** A section that was written is read, record by record, at any place in any packet. */
  lemma {:induction false} WrittenSection(pkt: seq<byte>, pos: nat, es: seq<Entry>)
    requires forall i | 0 <= i < |es| :: ValidEntry(es[i])
    requires pos <= |pkt| && SectionBytes(es) <= pkt[pos..]
    ensures Records(pkt, pos, |es|).Some?
    ensures var rs := Records(pkt, pos, |es|).value;
      |rs| == |es| && forall i | 0 <= i < |es| :: IsEntry(pkt, rs[i], es[i])
    decreases |es|
  {
    hide RecordAt, Encode, FixedBytes;
    if es != [] {
      var e := es[0];
      var bytes := RecordBytes(e.name, e.typ, e.cls, e.ttl, e.data);
      assert pkt[pos..][..|bytes|] == bytes;
      WrittenRecord(pkt, pos, e.name, e.typ, e.cls, e.ttl, e.data);
      assert pkt[pos + |bytes|..] == pkt[pos..][|bytes|..];
      WrittenSection(pkt, pos + |bytes|, es[1..]);
    }
  }

  // -------------------------------------------------------------------------
  // The room that a call takes
  // -------------------------------------------------------------------------

  /** Every read of this call stays inside a buffer of 255 bytes, which is what the callers have. */
  predicate Inside(pkt: seq<byte>, c: Cursor)
    decreases c.left
  {
    c.left == 0 ||
      (P.StaysInside(pkt, c.cur, MAX_DN) &&
       match RecordAt(pkt, c.cur)
       case None => true
       case Some(r) =>
         if Named(c.qdn, r) && Wanted(c, r) then true
         else if Named(c.qdn, r) && Follows(c, r) then
           P.StaysInside(pkt, r.start, MAX_DN) &&
           (AliasOf(pkt, r).None? || Inside(pkt, Past(c, r).(qdn := AliasOf(pkt, r), ttl := Min(c.ttl, r.ttl))))
         else Inside(pkt, Past(c, r)))
  }

  function NameAt(pkt: seq<byte>, pos: nat): (names: seq<Name>)
    ensures forall i | 0 <= i < |names| :: ValidLabels(names[i])
  {
    var o := P.Expand(pkt, pos, P.JUMP_LIMIT, MAX_DN);
    if o.Good? then [o.name] else []
  }

  /** The names that this call puts into a buffer. */
  function NamesRead(pkt: seq<byte>, c: Cursor): (names: seq<Name>)
    ensures forall i | 0 <= i < |names| :: ValidLabels(names[i])
    decreases c.left
  {
    if c.left == 0 then []
    else
      NameAt(pkt, c.cur) +
      match RecordAt(pkt, c.cur)
      case None => []
      case Some(r) =>
        if Named(c.qdn, r) && Wanted(c, r) then []
        else if Named(c.qdn, r) && Follows(c, r) then
          NameAt(pkt, r.start) +
          (if AliasOf(pkt, r).None? then []
           else NamesRead(pkt, Past(c, r).(qdn := AliasOf(pkt, r), ttl := Min(c.ttl, r.ttl))))
        else NamesRead(pkt, Past(c, r))
  }

  predicate AllFit(names: seq<Name>)
    requires forall i | 0 <= i < |names| :: ValidLabels(names[i])
  {
    forall i | 0 <= i < |names| :: |Encode(names[i])| <= MAX_DN
  }

  lemma NameFitsIff(pkt: seq<byte>, pos: nat)
    ensures P.StaysInside(pkt, pos, MAX_DN) <==> AllFit(NameAt(pkt, pos))
  {
    hide P.Expand, Encode;
    var o := P.Expand(pkt, pos, P.JUMP_LIMIT, MAX_DN);
    if o.Good? {
      P.ReadFitsIff(pkt, pos, P.JUMP_LIMIT, MAX_DN);
      assert NameAt(pkt, pos)[0] == o.name;
    }
  }

  lemma AllFitAppend(a: seq<Name>, b: seq<Name>)
    requires forall i | 0 <= i < |a| :: ValidLabels(a[i])
    requires forall i | 0 <= i < |b| :: ValidLabels(b[i])
    ensures AllFit(a + b) <==> AllFit(a) && AllFit(b)
  {
    hide Encode, ValidLabels;
    assert forall i | 0 <= i < |a| :: (a + b)[i] == a[i];
    assert forall i | 0 <= i < |b| :: b[i] == (a + b)[|a| + i];
  }

  /** A call stays inside exactly if each name that it reads has a wire form of at most 255 bytes. */
  lemma {:induction false} InsideIff(pkt: seq<byte>, c: Cursor)
    ensures Inside(pkt, c) <==> AllFit(NamesRead(pkt, c))
    decreases c.left
  {
    hide RecordAt, AliasOf, Named, Wanted, P.StaysInside, NameAt, AllFit, P.Expand;
    NothingFits();
    if c.left > 0 {
      NameFitsIff(pkt, c.cur);
      var tail := NamesRead(pkt, c)[|NameAt(pkt, c.cur)|..];
      AllFitAppend(NameAt(pkt, c.cur), tail);
      assert NameAt(pkt, c.cur) + tail == NamesRead(pkt, c);
      if RecordAt(pkt, c.cur).Some? {
        var r := RecordAt(pkt, c.cur).value;
        if Named(c.qdn, r) && Wanted(c, r) {
        } else if Named(c.qdn, r) && Follows(c, r) {
          NameFitsIff(pkt, r.start);
          if AliasOf(pkt, r).Some? {
            var n := Past(c, r).(qdn := AliasOf(pkt, r), ttl := Min(c.ttl, r.ttl));
            InsideIff(pkt, n);
            AllFitAppend(NameAt(pkt, r.start), NamesRead(pkt, n));
            assert tail == NameAt(pkt, r.start) + NamesRead(pkt, n);
          } else {
            assert tail == NameAt(pkt, r.start) + [] == NameAt(pkt, r.start);
          }
        } else {
          InsideIff(pkt, Past(c, r));
        }
      }
    }
  }

  lemma NothingFits()
    ensures AllFit([])
  {
  }

  // -------------------------------------------------------------------------
  // The code
  // -------------------------------------------------------------------------

  /** The fixed fields of a record, as the caller gets them. */
  datatype Fields = Fields(typ: nat, cls: nat, ttl: nat, start: nat, stop: nat)

  function FieldsOf(r: Record): Fields {
    Fields(r.typ, r.cls, r.ttl, r.start, r.stop)
  }

  /** The state of a walk; `qdn` is the caller's name, and later `dnbuf`. */
  class Parser {
    const pkt: seq<byte>
    var cur: nat
    var left: nat
    var qdn: array?<byte>
    var qtyp: nat
    var qcls: nat
    var nrr: nat
    var ttl: nat
    const dnbuf: array<byte>
    ghost var name: Name

    ghost predicate Valid()
      reads this, qdn, dnbuf
    {
      dnbuf.Length >= MAX_DN && (qdn != null ==> ValidLabels(name) && Encode(name) <= qdn[..])
    }

    ghost function View(): Cursor
      reads this
    {
      Cursor(cur, left, if qdn == null then None else Some(name), qtyp, qcls, nrr, ttl)
    }

    /**
     * `dns_initparse`: the walk begins behind the type and the class of the question at `question`, where
     * 255 stands for any, with as many records as the header says.
     */
    constructor (pkt: seq<byte>, question: nat, qdn: array?<byte>, bufsiz: nat, ghost name: Name)
      requires bufsiz >= MAX_DN && P.HEADER_SIZE <= |pkt| && question + 4 <= |pkt|
      requires qdn != null ==> ValidLabels(name) && Encode(name) <= qdn[..]
      ensures Valid() && fresh(dnbuf) && dnbuf.Length == bufsiz && this.pkt == pkt
      ensures nrr == 0 && ttl == 0xffff_ffff && cur == question + 4 && left == pkt[6] as int * 256 + pkt[7]
      ensures this.qdn == qdn && this.name == name
      ensures var typ, cls := pkt[question] as int * 256 + pkt[question + 1],
                              pkt[question + 2] as int * 256 + pkt[question + 3];
        qtyp == (if typ == 255 then 0 else typ) && qcls == (if cls == 255 then 0 else cls)
    {
      this.pkt, this.qdn, this.name := pkt, qdn, name;
      left := Get16(pkt, 6);
      qtyp := if Get16(pkt, question) == ANY then 0 else Get16(pkt, question);
      qcls := if Get16(pkt, question + 2) == ANY then 0 else Get16(pkt, question + 2);
      cur := question + 4;
      ttl, nrr := 0xffff_ffff, 0;
      dnbuf := new byte[bufsiz];
    }

    /** The first part of a round: the record at `pos`, with its name in `dn`. */
    method ReadRecord(pos: nat, dn: array<byte>) returns (ok: bool, f: Fields)
      requires dn.Length >= MAX_DN && (dn.Length > MAX_DN || P.StaysInside(pkt, pos, MAX_DN))
      modifies dn
      ensures ok == RecordAt(pkt, pos).Some?
      ensures ok ==>
        && f == FieldsOf(RecordAt(pkt, pos).value)
        && Encode(RecordAt(pkt, pos).value.name) <= dn[..]
    {
      hide P.Expand, P.StopOf, Body, Encode, Get16, Get32, P.StaysInside;
      f := Fields(0, 0, 0, 0, 0);
      var r, next := P.GetDn(pkt, pos, dn, MAX_DN);
      EncodeIsLong();
      if r <= 0 || next + 10 > |pkt| {
        return false, f;
      }
      var dsz := Get16(pkt, next + 8);
      var start := next + 10;
      if start + dsz > |pkt| {
        return false, f;
      }
      return true, Fields(Get16(pkt, next), Get16(pkt, next + 2), Get32(pkt, next + 4), start, start + dsz);
    }

    /** The alias branch: the name it stands for is the one to look for from now on. */
    method Follow(f: Fields, ghost r: Record) returns (ok: bool)
      requires Valid() && f == FieldsOf(r)
      requires dnbuf.Length > MAX_DN || P.StaysInside(pkt, r.start, MAX_DN)
      modifies this`qdn, this`name, this`ttl, dnbuf
      ensures ok == AliasOf(pkt, r).Some?
      ensures ok ==> qdn == dnbuf && Valid()
      ensures ok ==> View() == old(View()).(qdn := AliasOf(pkt, r), ttl := Min(old(ttl), r.ttl))
    {
      hide P.Expand, P.StopOf, Body, Encode, P.StaysInside;
      var n, next := P.GetDn(pkt, f.start, dnbuf, MAX_DN);
      EncodeIsLong();
      if n <= 0 || next != f.stop {
        return false;
      }
      qdn := dnbuf;
      name := AliasOf(pkt, r).value;
      if ttl > f.ttl {
        ttl := f.ttl;
      }
      return true;
    }

    /** One round of the loop of `dns_nextrr`: 1 with the record, -1 if the packet is broken, or 0 to go on. */
    method Round(pos: nat, dn: array<byte>) returns (code: int, f: Fields)
      requires Valid() && dn.Length >= MAX_DN && dn != qdn && dn != dnbuf && left > 0
      requires (dn.Length > MAX_DN && dnbuf.Length > MAX_DN) || Inside(pkt, View().(cur := pos))
      modifies this, dn, dnbuf
      ensures left == old(left) - 1 && -1 <= code <= 1 && (code >= 0 ==> dn != qdn)
      ensures code == -1 ==> Next(pkt, old(View()).(cur := pos)) == Broken
      ensures code == 0 ==>
        && Valid() && Next(pkt, old(View()).(cur := pos)) == Next(pkt, View().(cur := f.stop))
        && ((dn.Length > MAX_DN && dnbuf.Length > MAX_DN) || Inside(pkt, View().(cur := f.stop)))
      ensures code == 1 ==>
        && Valid() && RecordAt(pkt, pos).Some?
        && var r := RecordAt(pkt, pos).value;
        && Next(pkt, old(View()).(cur := pos)) == Found(r, View())
        && f == FieldsOf(r) && Encode(r.name) <= dn[..]
    {
      hide RecordAt, AliasOf, SameName, Body, Encode, P.StaysInside;
      left := left - 1;
      var ok;
      ok, f := ReadRecord(pos, dn);
      if !ok {
        return -1, f;
      }
      ghost var r := RecordAt(pkt, pos).value;
      if qdn != null {
        var same := DnEqual(qdn[..], dn[..], name, r.name);
        EncodeLength(name);
        if same == 0 {
          return 0, f;
        }
      }
      if (qcls == 0 || qcls == f.cls) && (qtyp == 0 || qtyp == f.typ) {
        cur := f.stop;
        nrr := nrr + 1;
        if ttl > f.ttl {
          ttl := f.ttl;
        }
        return 1, f;
      }
      if qdn != null && f.typ == CNAME && nrr == 0 {
        ok := Follow(f, r);
        if !ok {
          return -1, f;
        }
      }
      return 0, f;
    }

    /** `dns_nextrr`: 1 with the record, 0 at the end, -1 if the packet is broken. */
    method NextRr(dn: array<byte>) returns (code: int, f: Fields)
      requires Valid() && dn.Length >= MAX_DN && dn != qdn && dn != dnbuf
      requires (dn.Length > MAX_DN && dnbuf.Length > MAX_DN) || Inside(pkt, View())
      modifies this, dn, dnbuf
      ensures match Next(pkt, old(View()))
        case Found(r, c) =>
          && code == 1 && Valid() && View() == c
          && f.typ == r.typ && f.cls == r.cls && f.ttl == r.ttl && f.start == r.start && f.stop == r.stop
          && ValidLabels(r.name) && Encode(r.name) <= dn[..]
        case Done(c) => code == 0 && Valid() && View() == c
        case Broken => code == -1
    {
      hide Next, Inside, RecordAt, Body, Encode, P.StaysInside;
      ghost var c0 := View();
      var pos := cur;
      f := Fields(0, 0, 0, 0, 0);
      while left > 0
        invariant Valid() && 0 <= pos && dn != qdn && dn != dnbuf
        invariant Next(pkt, View().(cur := pos)) == Next(pkt, c0)
        invariant (dn.Length > MAX_DN && dnbuf.Length > MAX_DN) || Inside(pkt, View().(cur := pos))
        decreases left
      {
        code, f := Round(pos, dn);
        if code != 0 {
          return;
        }
        pos := f.stop;
      }
      cur := pos;
      NextDone(pkt, View());
      return 0, f;
    }
  }

  lemma NextDone(pkt: seq<byte>, c: Cursor)
    requires c.left == 0
    ensures Next(pkt, c) == Done(c)
  {
  }

  lemma EncodeIsLong()
    ensures forall name: Name | ValidLabels(name) :: |Encode(name)| >= 1
  {
  }

  lemma EncodeLength(name: Name)
    ensures ValidLabels(name) ==> |Encode(name)| >= 1
  {
  }
}
