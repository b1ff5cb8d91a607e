/** Domain names in text form: printing with escapes, and parsing. */
module DomainText {
  import opened DomainName
  import opened Sequences

  const DOT: byte := 46
  const BACKSLASH: byte := 92
  const DIGIT_ZERO: byte := 48

  // -------------------------------------------------------------------------
  // Printing
  // -------------------------------------------------------------------------

  /** The characters that zone files give a meaning to: . \ " ; @ $ */
  predicate Special(b: byte) {
    b == DOT || b == BACKSLASH || b == 34 || b == 59 || b == 64 || b == 36
  }

  function Escape(b: byte): (text: seq<byte>)
    ensures 1 <= |text| <= 4
  {
    if Special(b) then [BACKSLASH, b]
    else if b <= 0x20 || b >= 0x7f then
      [BACKSLASH, DIGIT_ZERO + b / 100, DIGIT_ZERO + b % 100 / 10, DIGIT_ZERO + b % 10]
    else [b]
  }

  function EscapeAll(text: seq<byte>): (s: seq<byte>)
    ensures |text| <= |s| <= 4 * |text|
  {
    if text == [] then [] else Escape(text[0]) + EscapeAll(text[1..])
  }

  /** The text of one label: each but the first stands after a dot. */
  function PrintLabel(text: seq<byte>, first: bool): seq<byte> {
    (if first then [] else [DOT]) + EscapeAll(text)
  }

  function PrintFrom(name: Name, first: bool): seq<byte> {
    if name == [] then [] else PrintLabel(name[0], first) + PrintFrom(name[1..], false)
  }

  function Print(name: Name): seq<byte> {
    PrintFrom(name, true)
  }

  /**
   * The text of one byte: itself; itself behind a backslash if zone files give it a meaning (they are
   * . \ " ; @ and $); or a backslash and its three decimal digits if it is no printable character.
   */
  lemma EscapeMeans(b: byte)
    ensures var e := Escape(b);
      if b in {46, 92, 34, 59, 64, 36} then e == [92, b]
      else if 0x21 <= b <= 0x7e then e == [b]
      else
        && |e| == 4 && e[0] == 92
        && 48 <= e[1] <= 57 && 48 <= e[2] <= 57 && 48 <= e[3] <= 57
        && (e[1] as int - 48) * 100 + (e[2] as int - 48) * 10 + (e[3] as int - 48) == b
  {
    ThreeDigits(b);
  }

  /** The text of a label is that of its bytes, one after the other. */
  lemma {:induction false} EscapeConcat(a: seq<byte>, b: byte)
    ensures EscapeAll([]) == []
    ensures EscapeAll(a + [b]) == EscapeAll(a) + Escape(b)
  {
    hide Escape;
    if a == [] {
      assert a + [b] == [b] && [b][1..] == [];
    } else {
      assert (a + [b])[1..] == a[1..] + [b];
      EscapeConcat(a[1..], b);
      Associates(Escape(a[0]), EscapeAll(a[1..]), Escape(b));
    }
  }

  /** The text of a name is that of its labels, with dots between them. */
  lemma PrintConcat(name: Name, last: seq<byte>)
    ensures Print([]) == []
    ensures Print(name + [last]) == Print(name) + (if name == [] then [] else [46]) + EscapeAll(last)
  {
    hide EscapeAll;
    PrintFromConcat(name, last, true);
  }

  lemma {:induction false} PrintFromConcat(name: Name, last: seq<byte>, first: bool)
    ensures PrintFrom(name + [last], first) ==
      PrintFrom(name, first) + (if name == [] && first then [] else [46]) + EscapeAll(last)
    decreases |name|
  {
    hide EscapeAll;
    if name == [] {
      assert name + [last] == [last] && [last][1..] == [];
    } else {
      hide PrintLabel;
      assert (name + [last])[1..] == name[1..] + [last];
      PrintFromConcat(name[1..], last, false);
      Associates(PrintLabel(name[0], first), PrintFrom(name[1..], false), [46]);
      Associates(PrintLabel(name[0], first), PrintFrom(name[1..], false) + [46], EscapeAll(last));
    }
  }

  lemma EscapeStep(dn: seq<byte>, d: nat, le: nat)
    requires d < le <= |dn|
    ensures EscapeAll(dn[d..le]) == Escape(dn[d]) + EscapeAll(dn[d + 1..le])
  {
    assert dn[d..le][1..] == dn[d + 1..le];
  }

  lemma PrintedSize(name: Name, first: bool)
    ensures |PrintFrom(name, first)| ==
      if name == [] then 0
      else (if first then 0 else 1) + |EscapeAll(name[0])| + |PrintFrom(name[1..], false)|
  {
  }

  /** The inner loop of `dns_dntop_size`. */
  method LabelSize(dn: seq<byte>, from: nat, le: nat, size0: nat) returns (size: nat)
    requires from <= le <= |dn|
    ensures size == size0 + |EscapeAll(dn[from..le])|
  {
    hide EscapeAll;
    var d := from;
    size := size0;
    while d < le
      invariant from <= d <= le
      invariant size + |EscapeAll(dn[d..le])| == size0 + |EscapeAll(dn[from..le])|
    {
      EscapeStep(dn, d, le);
      if Special(dn[d]) {
        size := size + 2;
      } else if dn[d] <= 0x20 || dn[d] >= 0x7f {
        size := size + 4;
      } else {
        size := size + 1;
      }
      d := d + 1;
    }
  }

  /** `dns_dntop_size`: the size of the printed name with its final zero, or 0 if that is too much. */
  method DnToPSize(dn: seq<byte>, ghost name: Name) returns (r: nat)
    requires ValidLabels(name) && Encode(name) <= dn
    ensures r == if |Print(name)| + 1 > MAX_NAME then 0 else |Print(name)| + 1
  {
    hide Escape, EscapeAll, Special, Encode, Body, PrintFrom;
    var size, d := 0, 0;
    ghost var rest := name;
    assert dn[0..] == dn;
    EncodeHead(dn, 0, name);
    while dn[d] != 0
      invariant 0 <= d < |dn| && 0 <= size && ValidLabels(rest) && Encode(rest) <= dn[d..]
      invariant size + |PrintFrom(rest, size == 0)| == |Print(name)|
      decreases |dn| - d
    {
      EncodeHead(dn, d, rest);
      PrintedSize(rest, size == 0);
      if size != 0 {
        size := size + 1;
      }
      var le := d + dn[d] + 1;
      size := LabelSize(dn, d + 1, le, size);
      d, rest := le, rest[1..];
      EncodeHead(dn, d, rest);
    }
    EncodeHead(dn, d, rest);
    PrintedSize(rest, size == 0);
    size := size + 1;
    return if size > MAX_NAME then 0 else size;
  }

  /** The switch of `dns_dntop` for one byte; `ne` is the end of the room. */
  method PutByte(b: byte, out: array<byte>, ne: nat, at: nat) returns (ok: bool, np: nat)
    requires at <= ne <= out.Length
    modifies out
    ensures ok ==> np == at + |Escape(b)| <= ne
    ensures ok ==> out[..np] == old(out[..at]) + Escape(b) && out[np..] == old(out[np..])
    ensures !ok ==> np == at && at + |Escape(b)| + 1 > ne && out[..] == old(out[..])
  {
    np := at;
    if Special(b) {
      if np + 2 > ne {
        return false, np;
      }
      out[np] := BACKSLASH;
      out[np + 1] := b;
      np := np + 2;
    } else if b <= 0x20 || b >= 0x7f {
      if np + 4 >= ne {
        return false, np;
      }
      out[np] := BACKSLASH;
      out[np + 1] := DIGIT_ZERO + b / 100;
      out[np + 2] := DIGIT_ZERO + b % 100 / 10;
      out[np + 3] := DIGIT_ZERO + b % 10;
      np := np + 4;
    } else {
      if np >= ne {
        return false, np;
      }
      out[np] := b;
      np := np + 1;
    }
    return true, np;
  }

  /** The inner loop of `dns_dntop`. */
  method PutLabel(dn: seq<byte>, from: nat, le: nat, out: array<byte>, ne: nat, at: nat)
    returns (ok: bool, np: nat)
    requires from <= le <= |dn| && at <= ne <= out.Length
    modifies out
    ensures at <= np <= ne && out[ne..] == old(out[ne..])
    ensures ok ==> np == at + |EscapeAll(dn[from..le])|
    ensures ok ==> out[..np] == old(out[..at]) + EscapeAll(dn[from..le]) && out[np..] == old(out[np..])
    ensures !ok ==> at + |EscapeAll(dn[from..le])| + 1 > ne
  {
    hide Escape, EscapeAll;
    var d := from;
    ok, np := true, at;
    while d < le
      invariant from <= d <= le && at <= np <= ne
      invariant out[..np] + EscapeAll(dn[d..le]) == old(out[..at]) + EscapeAll(dn[from..le])
      invariant out[np..] == old(out[np..])
    {
      EscapeStep(dn, d, le);
      ghost var done := out[..np];
      ok, np := PutByte(dn[d], out, ne, np);
      if !ok {
        assert |done| + |Escape(dn[d])| <= at + |EscapeAll(dn[from..le])|;
        return;
      }
      assert out[..np] + EscapeAll(dn[d + 1..le]) == done + EscapeAll(dn[d..le]);
      d := d + 1;
    }
    assert dn[d..le] == [] && EscapeAll([]) == [];
  }

  /** One round of the outer loop of `dns_dntop`: the dot and the label. */
  method PutDotAndLabel(dn: seq<byte>, d: nat, le: nat, out: array<byte>, ne: nat, at: nat)
    returns (ok: bool, np: nat)
    requires d < le <= |dn| && at <= ne <= out.Length
    modifies out
    ensures at <= np <= ne && out[ne..] == old(out[ne..])
    ensures ok ==> np == at + |PrintLabel(dn[d + 1..le], at == 0)|
    ensures ok ==> out[..np] == old(out[..at]) + PrintLabel(dn[d + 1..le], at == 0)
    ensures ok ==> out[np..] == old(out[np..])
    ensures !ok ==> at + |PrintLabel(dn[d + 1..le], at == 0)| + 1 > ne
  {
    hide EscapeAll;
    np := at;
    if np != 0 {
      if np >= ne {
        return false, np;
      }
      out[np] := DOT;
      np := np + 1;
      assert out[..np] == old(out[..at]) + [DOT];
    }
    ok, np := PutLabel(dn, d + 1, le, out, ne, np);
  }

  /** The buffer holds the text up to `rest`, and is as it was at the `start` from there on. */
  ghost predicate Printed(out: seq<byte>, np: nat, start: seq<byte>, rest: Name, name: Name) {
    && np <= |out| == |start|
    && out[..np] + PrintFrom(rest, np == 0) == Print(name)
    && out[np..] == start[np..]
  }

  lemma PrintedStep(out: seq<byte>, np: nat, start: seq<byte>, rest: Name, name: Name, out2: seq<byte>, np2: nat)
    requires Printed(out, np, start, rest, name) && rest != [] && ValidLabels(rest)
    requires np <= np2 <= |out2| == |out|
    requires out2[..np2] == out[..np] + PrintLabel(rest[0], np == 0)
    requires out2[np2..] == out[np2..]
    ensures Printed(out2, np2, start, rest[1..], name)
  {
    hide EscapeAll, PrintLabel, PrintFrom;
    PrintStep(out[..np], rest);
    assert out[np2..] == out[np..][np2 - np..] && start[np2..] == start[np..][np2 - np..];
  }

  lemma PrintedLeaves(out: seq<byte>, np: nat, start: seq<byte>, rest: Name, name: Name)
    requires Printed(out, np, start, rest, name)
    ensures |Print(name)| >= np
    ensures rest != [] ==> |Print(name)| >= np + |PrintLabel(rest[0], np == 0)|
  {
    hide EscapeAll, PrintLabel;
  }

  lemma PrintedEnd(out: seq<byte>, np: nat, start: seq<byte>, name: Name)
    requires Printed(out, np, start, [], name)
    ensures |Print(name)| == np
    ensures np < |out| ==> out[np := 0][..np + 1] == Print(name) + [0]
    ensures np < |out| ==> out[np := 0][np + 1..] == start[np + 1..]
  {
    if np < |out| {
      assert out[..np] == Print(name);
      assert out[np + 1..] == out[np..][1..] && start[np + 1..] == start[np..][1..];
    }
  }

  /** `dns_dntop`: succeeds exactly when the text and its final zero fit. */
  method DnToP(dn: seq<byte>, out: array<byte>, namesiz: nat, ghost name: Name) returns (r: int)
    requires ValidLabels(name) && Encode(name) <= dn && namesiz <= out.Length
    modifies out
    ensures |Print(name)| + 1 <= namesiz ==>
      && r == |Print(name)| + 1
      && out[..r] == Print(name) + [0]
      && out[r..] == old(out[r..])
    ensures |Print(name)| + 1 > namesiz ==> r == if namesiz >= MAX_NAME then -1 else 0
    ensures out[namesiz..] == old(out[namesiz..])
  {
    hide *;
    var ok, np, d := true, 0, 0;
    ghost var rest, start := name, out[..];
    assert dn[0..] == dn;
    EncodeHead(dn, 0, name);
    PrintedNothing(start, name);
    while dn[d] != 0
      invariant 0 <= d < |dn| && 0 <= np <= namesiz && ValidLabels(rest) && Encode(rest) <= dn[d..]
      invariant Printed(out[..], np, start, rest, name)
      invariant out[namesiz..] == start[namesiz..]
      decreases |dn| - d
    {
      EncodeHead(dn, d, rest);
      PrintedLeaves(out[..], np, start, rest, name);
      ghost var before, at := out[..], np;
      var le := d + dn[d] + 1;
      ok, np := PutDotAndLabel(dn, d, le, out, namesiz, np);
      if !ok {
        return if namesiz >= MAX_NAME then -1 else 0;
      }
      PrintedStep(before, at, start, rest, name, out[..], np);
      ValidRest(rest);
      d, rest := le, rest[1..];
      EncodeHead(dn, d, rest);
    }
    EncodeHead(dn, d, rest);
    PrintedEnd(out[..], np, start, name);
    if np >= namesiz {
      return if namesiz >= MAX_NAME then -1 else 0;
    }
    out[np] := 0;
    return np + 1;
  }

  lemma ValidRest(name: Name)
    requires name != [] && ValidLabels(name)
    ensures ValidLabels(name[1..])
  {
  }

  lemma PrintedNothing(start: seq<byte>, name: Name)
    ensures Printed(start, 0, start, name, name)
  {
    hide PrintFrom;
    assert start[..0] == [];
  }

  lemma PrintStep(before: seq<byte>, rest: Name)
    requires rest != []
    ensures before + PrintFrom(rest, before == []) ==
      (before + PrintLabel(rest[0], before == [])) + PrintFrom(rest[1..], false)
    ensures ValidLabels(rest) ==> PrintLabel(rest[0], before == []) != []
  {
    hide EscapeAll, PrintLabel;
    var x, y := PrintLabel(rest[0], before == []), PrintFrom(rest[1..], false);
    assert before + (x + y) == before + x + y;
    assert ValidLabels(rest) ==> ValidLabel(rest[0]);
    LabelShows(rest[0], before == []);
  }

  lemma LabelShows(text: seq<byte>, first: bool)
    ensures |PrintLabel(text, first)| >= |text|
  {
  }

  lemma {:induction false} EscapeAllHasNoZero(text: seq<byte>)
    ensures 0 !in EscapeAll(text)
  {
    if text != [] {
      EscapeAllHasNoZero(text[1..]);
    }
  }

  /** The text is a C string, and short: the zero result of `dns_dntop_size` is never given. */
  lemma {:induction false} PrintFits(name: Name, first: bool)
    requires ValidLabels(name)
    ensures 0 !in PrintFrom(name, first)
    ensures |PrintFrom(name, first)| <= 4 * |Body(name)|
  {
    hide EscapeAll;
    if name != [] {
      EscapeAllHasNoZero(name[0]);
      PrintFits(name[1..], false);
    }
  }

  lemma SizeIsNeverZero(name: Name)
    requires WellFormed(name)
    ensures 0 !in Print(name) && |Print(name)| + 1 <= MAX_NAME
  {
    PrintFits(name, true);
  }

  // -------------------------------------------------------------------------
  // Parsing
  // -------------------------------------------------------------------------

  /** `absolute` is what `dns_ptodn` leaves in `isabs`. */
  datatype Outcome = Bad | TooLong | Good(name: Name, absolute: bool)

  predicate Digit(b: byte) {
    DIGIT_ZERO <= b <= DIGIT_ZERO + 9
  }

  /** The byte that stands at `i`, perhaps escaped, and where the text goes on. */
  function Unescape(text: seq<byte>, i: nat): (r: Option<(byte, nat)>)
    requires i < |text|
    ensures r.Some? ==> i < r.value.1 <= |text|
  {
    if text[i] != BACKSLASH then Some((text[i], i + 1))
    else if i + 1 == |text| then None
    else if !Digit(text[i + 1]) then Some((text[i + 1], i + 2))
    else if i + 2 == |text| || !Digit(text[i + 2]) then Some((text[i + 1] - DIGIT_ZERO, i + 2))
    else
      var two := (text[i + 1] - DIGIT_ZERO) * 10 + text[i + 2] - DIGIT_ZERO;
      if i + 3 == |text| || !Digit(text[i + 3]) then Some((two, i + 3))
      else if two * 10 + text[i + 3] - DIGIT_ZERO > 255 then None
      else Some((two * 10 + text[i + 3] - DIGIT_ZERO, i + 4))
  }

  /** The rest of the text from `i`, with `done` and `cur` read and `room` bytes left for output. */
  function Parse(text: seq<byte>, i: nat, done: Name, cur: seq<byte>, room: int): (r: Outcome)
    requires i <= |text|
    ensures r.Good? && ValidLabels(done) ==> ValidLabels(r.name)
    decreases |text| - i
  {
    if i == |text| then
      if |cur| > MAX_LABEL then Bad
      else if cur == [] then Good(done, true)
      else Good(done + [cur], false)
    else if text[i] == DOT then
      if cur == [] then
        if i == 0 && |text| == 1 then Good(done, true) else Bad
      else if |cur| > MAX_LABEL then Bad
      else Parse(text, i + 1, done + [cur], [], room - 1)
    else if room <= 0 then TooLong
    else
      match Unescape(text, i)
      case None => Bad
      case Some(next) => Parse(text, next.1, done, cur + [next.0], room - 1)
  }

  /** A text read into a buffer of `lim` bytes: the first length byte and the last byte are kept. */
  function ParseText(text: seq<byte>, lim: nat): Outcome {
    Parse(text, 0, [], [], lim - 2)
  }

  lemma {:induction false} ParseGrows(text: seq<byte>, i: nat, done: Name, cur: seq<byte>, room: int)
    requires i <= |text| && ValidLabels(done)
    ensures var r := Parse(text, i, done, cur, room);
      r.Good? ==> |Body(r.name)| >= |Body(done)| + if cur == [] then 0 else 1 + |cur|
    decreases |text| - i
  {
    hide Unescape, Body;
    if i < |text| && Parse(text, i, done, cur, room).Good? && !(text[i] == DOT && cur == []) {
      if text[i] == DOT {
        BodyAppend(done, cur);
        ParseGrows(text, i + 1, done + [cur], [], room - 1);
      } else {
        var next := Unescape(text, i).value;
        ParseGrows(text, next.1, done, cur + [next.0], room - 1);
      }
    } else if i == |text| && 0 < |cur| <= MAX_LABEL {
      BodyAppend(done, cur);
    }
  }

  /** A smaller buffer only cuts: it gives the same name when that fits, and is too small when not. */
  lemma {:induction false} RoomOnlyCuts(
      text: seq<byte>, i: nat, done: Name, cur: seq<byte>, room: int, more: int)
    requires i <= |text| && ValidLabels(done)
    requires -1 <= room <= more && (cur != [] ==> room >= 0)
    ensures var big := Parse(text, i, done, cur, more);
      var small := Parse(text, i, done, cur, room);
      if big.Good? then
        small == if |Body(big.name)| + 1 <= room + 2 + |Body(done)| + |cur| then big else TooLong
      else
        small.TooLong? || (big.Bad? && small.Bad?)
    decreases |text| - i
  {
    hide Unescape, Body;
    if i < |text| && !(text[i] == DOT && cur == []) {
      if text[i] == DOT {
        if |cur| <= MAX_LABEL {
          BodyAppend(done, cur);
          RoomOnlyCuts(text, i + 1, done + [cur], [], room - 1, more - 1);
        }
      } else if Unescape(text, i).Some? {
        var next := Unescape(text, i).value;
        if room > 0 {
          RoomOnlyCuts(text, next.1, done, cur + [next.0], room - 1, more - 1);
        } else {
          ParseGrows(text, next.1, done, cur + [next.0], more - 1);
        }
      }
    } else if i == |text| && 0 < |cur| <= MAX_LABEL {
      BodyAppend(done, cur);
    }
  }

  /** A buffer of `lim` bytes takes a text exactly when the name's wire form fits. */
  lemma ParseFits(text: seq<byte>, lim: nat, more: nat)
    requires 1 <= lim <= more
    ensures var big := ParseText(text, more);
      big.Good? ==> ParseText(text, lim) == if |Encode(big.name)| <= lim then big else TooLong
    ensures ParseText(text, lim).Good? ==> ParseText(text, more) == ParseText(text, lim)
    ensures ParseText(text, lim).Good? ==> |Encode(ParseText(text, lim).name)| <= lim
  {
    RoomOnlyCuts(text, 0, [], [], lim - 2, more - 2);
  }

  // -------------------------------------------------------------------------
  // The round trip
  // -------------------------------------------------------------------------

  lemma ThreeDigits(b: byte)
    ensures var x, y, z := b / 100, b % 100 / 10, b % 10;
      0 <= x <= 9 && 0 <= y <= 9 && 0 <= z <= 9 && (x * 10 + y) * 10 + z == b
  {
  }

  /** Three digits make one byte. */
  lemma UnescapeDigits(text: seq<byte>, i: nat, x: int, y: int, z: int)
    requires i + 4 <= |text| && text[i] == BACKSLASH
    requires 0 <= x <= 9 && 0 <= y <= 9 && 0 <= z <= 9 && (x * 10 + y) * 10 + z <= 255
    requires text[i + 1] == DIGIT_ZERO + x && text[i + 2] == DIGIT_ZERO + y && text[i + 3] == DIGIT_ZERO + z
    ensures Unescape(text, i) == Some(((x * 10 + y) * 10 + z, i + 4))
  {
  }

  lemma UnescapeEscape(text: seq<byte>, i: nat, b: byte)
    requires i <= |text| && Escape(b) <= text[i..]
    ensures i < |text| && text[i] != DOT
    ensures Unescape(text, i) == Some((b, i + |Escape(b)|))
  {
    var e, tail := Escape(b), text[i..];
    assert tail[0] == e[0] == text[i];
    if |e| >= 2 {
      assert tail[1] == e[1] == text[i + 1];
    }
    if |e| == 4 {
      assert tail[2] == e[2] == text[i + 2];
      assert tail[3] == e[3] == text[i + 3];
      hide Unescape;
      ThreeDigits(b);
      UnescapeDigits(text, i, b / 100, b % 100 / 10, b % 10);
    }
  }

  lemma {:induction false} ParseEscapes(
      text: seq<byte>, i: nat, done: Name, cur: seq<byte>, room: int, part: seq<byte>)
    requires i <= |text| && EscapeAll(part) <= text[i..] && room >= -1
    ensures i + |EscapeAll(part)| <= |text|
    ensures Parse(text, i, done, cur, room) ==
      if part == [] || |part| <= room then
        Parse(text, i + |EscapeAll(part)|, done, cur + part, room - |part|)
      else TooLong
    decreases |part|
  {
    hide Escape, Unescape, Parse;
    if part == [] {
      assert cur + part == cur;
    } else {
      var e, more := Escape(part[0]), EscapeAll(part[1..]);
      UnescapeEscape(text, i, part[0]);
      ParseStep(text, i, done, cur, room);
      assert text[i + |e|..] == text[i..][|e|..];
      assert EscapeAll(part)[|e|..] == more;
      if room > 0 {
        ParseEscapes(text, i + |e|, done, cur + [part[0]], room - 1, part[1..]);
        assert cur + [part[0]] + part[1..] == cur + part;
      }
    }
  }

  lemma PrintedText(text: seq<byte>, i: nat, rest: Name)
    requires rest != [] && i <= |text| && text[i..] == PrintFrom(rest, false)
    ensures i < |text| && text[i] == DOT && EscapeAll(rest[0]) <= text[i + 1..]
    ensures var j := i + 1 + |EscapeAll(rest[0])|;
      j <= |text| && text[j..] == PrintFrom(rest[1..], false)
  {
    hide EscapeAll;
    var part := rest[0];
    var j := i + 1 + |EscapeAll(part)|;
    assert text[i] == text[i..][0];
    assert text[i + 1..] == text[i..][1..] == EscapeAll(part) + PrintFrom(rest[1..], false);
    assert text[j..] == text[i + 1..][|EscapeAll(part)|..];
  }

  /** After one label, the labels that follow are read back. */
  lemma {:induction false} ParsePrinted(
      text: seq<byte>, i: nat, done: Name, cur: seq<byte>, room: int, rest: Name)
    requires ValidLabel(cur) && ValidLabels(rest) && room >= 0
    requires i <= |text| && text[i..] == PrintFrom(rest, false)
    ensures Parse(text, i, done, cur, room) ==
      if |Body(rest)| <= room then Good(done + [cur] + rest, false) else TooLong
    decreases |rest|
  {
    hide EscapeAll, PrintFrom, PrintLabel, Unescape, Parse, Body;
    if rest == [] {
      PrintedSize(rest, false);
      BodyNothing();
      assert i == |text|;
      ParseEnd(text, done, cur, room);
      assert done + [cur] + rest == done + [cur];
    } else {
      var part := rest[0];
      var j := i + 1 + |EscapeAll(part)|;
      PrintedText(text, i, rest);
      BodySize(rest);
      ParseStep(text, i, done, cur, room);
      ParseEscapes(text, i + 1, done + [cur], [], room - 1, part);
      assert [] + part == part;
      if |part| <= room - 1 {
        ParsePrinted(text, j, done + [cur], part, room - 1 - |part|, rest[1..]);
        assert done + [cur] + [part] + rest[1..] == done + [cur] + rest;
      }
    }
  }

  lemma BodyNothing()
    ensures Body([]) == []
  {
  }

  /** Every name survives printing and parsing, whenever the buffer has room for it. */
  lemma RoundTrip(name: Name, lim: nat)
    requires ValidLabels(name) && lim >= 1
    ensures ParseText(Print(name), lim) ==
      if |Encode(name)| <= lim then Good(name, name == []) else TooLong
  {
    hide EscapeAll, PrintLabel, Unescape;
    if name != [] {
      LabelsRoundTrip(name, lim);
    }
  }

  lemma LabelsRoundTrip(name: Name, lim: nat)
    requires ValidLabels(name) && lim >= 1 && name != []
    ensures ParseText(Print(name), lim) == if |Encode(name)| <= lim then Good(name, false) else TooLong
  {
    hide EscapeAll, PrintFrom, PrintLabel, Unescape, Parse;
    var text, part := Print(name), name[0];
    var j := |EscapeAll(part)|;
    PrintedFirst(text, name);
    ParseEscapes(text, 0, [], [], lim - 2, part);
    assert [] + part == part;
    if |part| <= lim - 2 {
      ParsePrinted(text, j, [], part, lim - 2 - |part|, name[1..]);
      assert [] + [part] + name[1..] == name;
    }
  }

  lemma PrintedFirst(text: seq<byte>, name: Name)
    requires name != [] && text == PrintFrom(name, true)
    ensures EscapeAll(name[0]) <= text[0..]
    ensures |EscapeAll(name[0])| <= |text| && text[|EscapeAll(name[0])|..] == PrintFrom(name[1..], false)
  {
    hide EscapeAll;
    assert [] + EscapeAll(name[0]) == EscapeAll(name[0]);
    assert text[0..] == text;
  }

  /** A final dot makes a name absolute, and is no part of it. */
  lemma FinalDot(name: Name, lim: nat)
    requires ValidLabels(name) && name != [] && 1 <= lim && |Encode(name)| <= lim
    ensures ParseText(Print(name) + [46], lim) == Good(name, true)
  {
    hide EscapeAll, PrintFrom, PrintLabel, Unescape, Parse;
    ParseToEnd(name, [46], lim);
    var text, n := Print(name) + [46], |Print(name)|;
    var done, cur := name[..|name| - 1], name[|name| - 1];
    ParseStep(text, n, done, cur, lim - 1 - |Body(name)|);
    ParseEnd(text, done + [cur], [], lim - 2 - |Body(name)|);
    assert done + [cur] == name;
  }

  /** An empty label is refused: at the start, unless the text is a single dot, and in the middle. */
  lemma EmptyLabel(name: Name, rest: seq<byte>, lim: nat)
    requires ValidLabels(name) && 1 <= lim && |Encode(name)| <= lim
    requires name == [] ==> rest != []
    ensures ParseText(if name == [] then [46] + rest else Print(name) + ([46, 46] + rest), lim) == Bad
  {
    hide EscapeAll, PrintFrom, PrintLabel, Unescape, Parse;
    if name == [] {
      ParseStep([46] + rest, 0, [], [], lim - 2);
    } else {
      var more: seq<byte> := [46, 46] + rest;
      ParseToEnd(name, more, lim);
      var text, n := Print(name) + more, |Print(name)|;
      var done, cur := name[..|name| - 1], name[|name| - 1];
      assert text[n] == more[0] == 46 && text[n + 1] == more[1] == 46;
      ParseStep(text, n, done, cur, lim - 1 - |Body(name)|);
      ParseStep(text, n + 1, done + [cur], [], lim - 2 - |Body(name)|);
    }
  }

  /** A label of more than 63 bytes is refused, at the end of the text or before a dot. */
  lemma LongLabel(part: seq<byte>, rest: seq<byte>, lim: nat)
    requires |part| > 63 && |part| + 2 <= lim && (rest != [] ==> rest[0] == 46)
    ensures ParseText(EscapeAll(part) + rest, lim) == Bad
  {
    hide EscapeAll, Unescape, Parse;
    var text, n := EscapeAll(part) + rest, |EscapeAll(part)|;
    assert text[0..] == text;
    ParseEscapes(text, 0, [], [], lim - 2, part);
    assert [] + part == part;
    if rest == [] {
      ParseEnd(text, [], part, lim - 2 - |part|);
    } else {
      assert text[n] == rest[0];
      ParseStep(text, n, [], part, lim - 2 - |part|);
    }
  }

  /** After a printed name, whatever follows, its last label has been read and the others are done. */
  lemma ParseToEnd(name: Name, rest: seq<byte>, lim: nat)
    requires ValidLabels(name) && name != [] && |Encode(name)| <= lim
    ensures ParseText(Print(name) + rest, lim) ==
      Parse(Print(name) + rest, |Print(name)|, name[..|name| - 1], name[|name| - 1], lim - 1 - |Body(name)|)
  {
    hide EscapeAll, PrintFrom, PrintLabel, Unescape, Parse, Body;
    var printed, part := Print(name), name[0];
    var text, j := printed + rest, |EscapeAll(part)|;
    PrintedFirst(printed, name);
    Beginning(printed, rest, EscapeAll(part));
    BodySize(name);
    ParseEscapes(text, 0, [], [], lim - 2, part);
    assert [] + part == part;
    ParseLabels(text, j, [], part, lim - 2 - |part|, name[1..], rest);
    FirstAndRest(name);
  }

  lemma Beginning(x: seq<byte>, y: seq<byte>, start: seq<byte>)
    requires start <= x[0..]
    ensures start <= (x + y)[0..] && (x + y)[|start|..] == x[|start|..] + y
  {
  }

  lemma FirstAndRest(name: Name)
    requires name != []
    ensures [name[0]] + name[1..] == name && [] + name[..|name| - 1] == name[..|name| - 1]
  {
  }

  lemma BodySize(name: Name)
    requires ValidLabels(name) && name != []
    ensures |Body(name)| == 1 + |name[0]| + |Body(name[1..])| && |Encode(name)| == |Body(name)| + 1
  {
  }

  lemma {:induction false} ParseLabels(
      text: seq<byte>, i: nat, done: Name, cur: seq<byte>, room: int, names: Name, rest: seq<byte>)
    requires ValidLabel(cur) && ValidLabels(names) && |Body(names)| <= room
    requires i <= |text| && text[i..] == PrintFrom(names, false) + rest
    ensures i + |PrintFrom(names, false)| <= |text|
    ensures Parse(text, i, done, cur, room) ==
      var all := [cur] + names;
      Parse(text, i + |PrintFrom(names, false)|, done + all[..|names|], all[|names|], room - |Body(names)|)
    decreases |names|
  {
    hide EscapeAll, PrintFrom, PrintLabel, Unescape, Parse, Body;
    PrintedSize(names, false);
    if names == [] {
      BodyNothing();
      assert done + ([cur] + names)[..0] == done;
    } else {
      var part := names[0];
      var j := i + 1 + |EscapeAll(part)|;
      BodySize(names);
      LabelShown(text, i, names, rest);
      ParseStep(text, i, done, cur, room);
      ParseEscapes(text, i + 1, done + [cur], [], room - 1, part);
      assert [] + part == part;
      ParseLabels(text, j, done + [cur], part, room - 1 - |part|, names[1..], rest);
      ShiftLabels(done, cur, names);
    }
  }

  lemma LabelShown(text: seq<byte>, i: nat, names: Name, rest: seq<byte>)
    requires names != [] && i <= |text| && text[i..] == PrintFrom(names, false) + rest
    ensures i < |text| && text[i] == DOT && EscapeAll(names[0]) <= text[i + 1..]
    ensures var j := i + 1 + |EscapeAll(names[0])|;
      j <= |text| && text[j..] == PrintFrom(names[1..], false) + rest
  {
    hide EscapeAll, PrintFrom;
    PrintedHead(names);
    Parts(text, i, DOT, EscapeAll(names[0]), PrintFrom(names[1..], false), rest);
  }

  lemma PrintedHead(names: Name)
    requires names != []
    ensures PrintFrom(names, false) == [DOT] + EscapeAll(names[0]) + PrintFrom(names[1..], false)
  {
    hide EscapeAll;
  }

  lemma Parts(text: seq<byte>, i: nat, b: byte, x: seq<byte>, y: seq<byte>, z: seq<byte>)
    requires i <= |text| && text[i..] == [b] + x + y + z
    ensures i + 1 + |x| <= |text| && text[i] == b && text[i + 1..][..|x|] == x && text[i + 1 + |x|..] == y + z
  {
    var s := [b] + x + y + z;
    assert text[i] == text[i..][0];
    assert text[i + 1..] == s[1..];
    assert text[i + 1 + |x|..] == s[1 + |x|..];
  }

  lemma ShiftLabels(done: Name, cur: seq<byte>, names: Name)
    requires names != []
    ensures var all, later := [cur] + names, [names[0]] + names[1..];
      done + [cur] + later[..|names| - 1] == done + all[..|names|] && later[|names| - 1] == all[|names|]
  {
  }

  /**
   * What may stand behind a backslash: one to three digits are a decimal number, which must be less
   * than 256; any other byte stands for itself; and there must be something.
   */
  lemma UnescapeMeans(text: seq<byte>, i: nat, k: nat)
    requires i < |text| && text[i] == 92 && i + 1 + k <= |text| && k <= 3
    requires forall j | i < j <= i + k :: 48 <= text[j] <= 57
    requires k < 3 && i + 1 + k < |text| ==> !(48 <= text[i + 1 + k] <= 57)
    ensures Unescape(text, i) ==
      if k == 0 then (if i + 1 == |text| then None else Some((text[i + 1], i + 2)))
      else
        var d: int := text[i + 1] as int - 48;
        var two := if k == 1 then d else d * 10 + (text[i + 2] as int - 48);
        var value := if k < 3 then two else two * 10 + (text[i + 3] as int - 48);
        if value > 255 then None else Some((value, i + 1 + k))
  {
  }

  // -------------------------------------------------------------------------
  // The parser
  // -------------------------------------------------------------------------

  /** `strlen`: `text` is what stands before the first zero. */
  method StrLen(mem: seq<byte>, ghost text: seq<byte>) returns (n: nat)
    requires 0 !in text && text + [0] <= mem
    ensures n == |text|
  {
    n := 0;
    assert mem[|text|] == (text + [0])[|text|];
    while mem[n] != 0
      invariant n <= |text|
      decreases |text| - n
    {
      assert n == |text| || mem[n] == (text + [0])[n];
      n := n + 1;
    }
  }

  /** The next byte of the loop of `dns_ptodn`, and where the text goes on; `ok` unless the escape is bad. */
  method ReadByte(text: seq<byte>, i: nat) returns (ok: bool, c: nat, np: nat)
    requires i < |text|
    ensures ok == Unescape(text, i).Some?
    ensures ok ==> Unescape(text, i).value == (c, np)
  {
    if text[i] != BACKSLASH {
      return true, text[i], i + 1;
    }
    np, c := i + 1, 0;
    if np == |text| {
      return false, c, np;
    }
    if DIGIT_ZERO <= text[np] <= DIGIT_ZERO + 9 {
      c, np := text[np] - DIGIT_ZERO, np + 1;
      if np < |text| && DIGIT_ZERO <= text[np] <= DIGIT_ZERO + 9 {
        c, np := c * 10 + text[np] - DIGIT_ZERO, np + 1;
        if np < |text| && DIGIT_ZERO <= text[np] <= DIGIT_ZERO + 9 {
          c, np := c * 10 + text[np] - DIGIT_ZERO, np + 1;
          if c > 255 {
            return false, c, np;
          }
        }
      }
    } else {
      c, np := text[np], np + 1;
    }
    return true, c, np;
  }

  /** What the output buffer holds: labels done, then a place for a length, then the label being read. */
  ghost predicate Written(dn: seq<byte>, llab: nat, dp: nat, done: Name, cur: seq<byte>) {
    && ValidLabels(done)
    && llab == |Body(done)| + 1
    && dp == llab + |cur|
    && llab - 1 <= |dn|
    && dn[..llab - 1] == Body(done)
    && (cur != [] ==> dp <= |dn| && dn[llab..dp] == cur)
  }

  lemma WrittenByte(dn: seq<byte>, llab: nat, dp: nat, done: Name, cur: seq<byte>, c: byte)
    requires Written(dn, llab, dp, done, cur) && dp < |dn|
    ensures Written(dn[dp := c], llab, dp + 1, done, cur + [c])
  {
    hide Body;
    var next := dn[dp := c];
    assert next[..llab - 1] == dn[..llab - 1];
    assert next[llab..dp + 1] == cur + [c];
  }

  lemma WrittenLabel(dn: seq<byte>, llab: nat, dp: nat, done: Name, cur: seq<byte>)
    requires Written(dn, llab, dp, done, cur) && ValidLabel(cur)
    ensures ValidLabels(done + [cur])
    ensures Written(dn[llab - 1 := |cur|], dp + 1, dp + 1, done + [cur], [])
  {
    hide Body;
    BodyAppend(done, cur);
    var next := dn[llab - 1 := |cur|];
    assert next[llab..dp] == dn[llab..dp];
    assert next[..llab - 1] == dn[..llab - 1];
    assert next[..dp] == next[..llab - 1] + [next[llab - 1]] + next[llab..dp];
  }

  /** The end of the text: the last label's length, and the final zero if that label is not empty. */
  lemma WrittenEnd(dn: seq<byte>, llab: nat, dp: nat, done: Name, cur: seq<byte>)
    requires Written(dn, llab, dp, done, cur) && |cur| <= MAX_LABEL && llab <= |dn|
    requires cur != [] ==> dp < |dn|
    ensures var next := dn[llab - 1 := |cur|];
      if cur == [] then next[..dp] == Encode(done)
      else ValidLabels(done + [cur]) && next[dp := 0][..dp + 1] == Encode(done + [cur])
  {
    hide Body;
    if cur == [] {
      var next := dn[llab - 1 := 0];
      assert next[..dp] == next[..llab - 1] + [0];
      assert next[..llab - 1] == dn[..llab - 1];
    } else {
      WrittenLabel(dn, llab, dp, done, cur);
      var next := dn[llab - 1 := |cur|];
      assert next[dp := 0][..dp + 1] == next[..dp] + [0];
    }
  }

  /** The end of `dns_ptodn`. */
  method Finish(dn: array<byte>, llab: nat, dp0: nat, ghost lim: nat, ghost done: Name, ghost cur: seq<byte>)
    returns (r: int, isabs: bool)
    requires Written(dn[..], llab, dp0, done, cur)
    requires dp0 == llab + |cur| && 1 <= llab <= lim <= dn.Length && (cur != [] ==> dp0 < lim)
    modifies dn
    ensures dn[lim..] == old(dn[lim..])
    ensures |cur| > MAX_LABEL ==> r == -1
    ensures |cur| <= MAX_LABEL ==> isabs == (cur == [])
    ensures |cur| <= MAX_LABEL ==>
      var name := if cur == [] then done else done + [cur];
      ValidLabels(name) && 1 <= r <= lim && dn[..r] == Encode(name) && |Encode(name)| == r
  {
    hide Body, Encode;
    var dp := dp0;
    var c := dp - llab;
    isabs := false;
    if c > MAX_LABEL {
      return -1, isabs;
    }
    WrittenEnd(dn[..], llab, dp, done, cur);
    dn[llab - 1] := c;
    if c != 0 {
      dn[dp] := 0;
      dp := dp + 1;
      isabs := false;
    } else {
      isabs := true;
    }
    return dp, isabs;
  }

  /** One round of the grammar. */
  lemma ParseStep(text: seq<byte>, i: nat, done: Name, cur: seq<byte>, room: int)
    requires i < |text|
    ensures text[i] == DOT ==>
      Parse(text, i, done, cur, room) ==
        if cur == [] then (if i == 0 && |text| == 1 then Good(done, true) else Bad)
        else if |cur| > MAX_LABEL then Bad
        else Parse(text, i + 1, done + [cur], [], room - 1)
    ensures text[i] != DOT ==>
      Parse(text, i, done, cur, room) ==
        if room <= 0 then TooLong
        else if Unescape(text, i).None? then Bad
        else
          var next := Unescape(text, i).value;
          Parse(text, next.1, done, cur + [next.0], room - 1)
  {
    hide Unescape;
  }

  lemma ParseEnd(text: seq<byte>, done: Name, cur: seq<byte>, room: int)
    ensures Parse(text, |text|, done, cur, room) ==
      if |cur| > MAX_LABEL then Bad
      else if cur == [] then Good(done, true)
      else Good(done + [cur], false)
  {
  }

  /** `dns_ptodn`; a `namelen` of zero stands for a C string. */
  method PToDn(mem: seq<byte>, namelen: nat, dn: array<byte>, dnsiz: nat, ghost text: seq<byte>)
    returns (r: int, isabs: bool)
    requires namelen == 0 ==> 0 !in text && text + [0] <= mem
    requires namelen != 0 ==> namelen <= |mem| && text == mem[..namelen]
    requires dnsiz <= dn.Length
    modifies dn
    ensures dn[if dnsiz >= MAX_DN then MAX_DN else dnsiz..] == old(dn[if dnsiz >= MAX_DN then MAX_DN else dnsiz..])
    ensures dnsiz == 0 ==> r == 0
    ensures dnsiz > 0 ==>
      match ParseText(text, if dnsiz >= MAX_DN then MAX_DN else dnsiz)
      case Bad => r == -1
      case TooLong => r == if dnsiz >= MAX_DN then -1 else 0
      case Good(name, absolute) =>
        && WellFormed(name)
        && isabs == absolute
        && 1 <= r <= dnsiz
        && dn[..r] == Encode(name)
  {
    hide Body, Encode, Unescape, Written, Parse, ValidLabels;
    isabs := false;
    var ne := namelen;
    if namelen == 0 {
      ne := StrLen(mem, text);
    }
    assert mem[..ne] == text;
    if dnsiz == 0 {
      return 0, isabs;
    }
    var lim := if dnsiz >= MAX_DN then MAX_DN else dnsiz;
    var de := lim - 1;
    var np, dp, llab := 0, 1, 1;
    ghost var done: Name, cur: seq<byte> := [], [];
    WrittenNothing(dn[..]);
    while np < ne
      invariant 0 <= np <= ne && 1 <= llab && dp == llab + |cur| && dp <= de + 1 && (cur != [] ==> dp <= de)
      invariant dn[lim..] == old(dn[lim..])
      invariant Written(dn[..], llab, dp, done, cur)
      invariant Parse(text, np, done, cur, de - dp) == ParseText(text, lim)
      invariant ValidLabels(done)
      decreases ne - np
    {
      assert mem[np] == text[np];
      ParseStep(text, np, done, cur, de - dp);
      if mem[np] == DOT {
        var c := dp - llab;
        if c == 0 {
          if np == 0 && np + 1 == ne {
            np := np + 1;
            break;
          }
          return -1, isabs;
        }
        if c > MAX_LABEL {
          return -1, isabs;
        }
        WrittenLabel(dn[..], llab, dp, done, cur);
        assert dn[..][llab - 1 := |cur|][lim..] == dn[lim..];
        dn[llab - 1] := c;
        dp := dp + 1;
        llab := dp;
        np := np + 1;
        done, cur := done + [cur], [];
        continue;
      }
      if dp >= de {
        return if dnsiz >= MAX_DN then -1 else 0, isabs;
      }
      var ok, b, next := ReadByte(mem[..ne], np);
      if !ok {
        return -1, isabs;
      }
      WrittenByte(dn[..], llab, dp, done, cur, b);
      dn[dp] := b;
      dp, np := dp + 1, next;
      cur := cur + [b];
    }
    ParseEnd(text, done, cur, de - dp);
    r, isabs := Finish(dn, llab, dp, lim, done, cur);
  }

  lemma WrittenNothing(dn: seq<byte>)
    ensures Written(dn, 1, 1, [], [])
  {
  }
}
