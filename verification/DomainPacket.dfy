/** Names inside packets: decompression with a budget of jumps. */
module DomainPacket {
  import opened DomainName
  import opened Sequences

  const HEADER_SIZE := 12
  const JUMP_LIMIT := 100

  datatype Outcome = Bad | NoRoom | Good(name: Name)

  /** The value of a two-byte pointer: any of the two top bits makes one. */
  function Target(hi: byte, lo: byte): nat {
    hi % 64 * 256 + lo
  }

  predicate IsJump(c: byte) {
    c >= 64
  }

  function Prepend(done: Name, o: Outcome): Outcome {
    if o.Good? then Good(done + o.name) else o
  }

  /**
   * Section 4.1.4 of RFC 1035: labels up to a zero byte or a pointer to the rest of the name.
   * At most `jumps` pointers are followed, and the labels with their lengths take at most `room` bytes.
   */
  function Expand(pkt: seq<byte>, pos: nat, jumps: nat, room: nat): (r: Outcome)
    ensures r.Good? ==> ValidLabels(r.name)
    decreases jumps, |pkt| - pos
  {
    if pos >= |pkt| then Bad
    else
      var c := pkt[pos];
      if c == 0 then Good([])
      else if IsJump(c) then
        if pos + 1 >= |pkt| || jumps == 0 then Bad
        else
          var target := Target(c, pkt[pos + 1]);
          if target < HEADER_SIZE then Bad else Expand(pkt, target, jumps - 1, room)
      else if pos + 1 + c > |pkt| then Bad
      else if c + 1 > room then NoRoom
      else Prepend([pkt[pos + 1..pos + 1 + c]], Expand(pkt, pos + 1 + c, jumps, room - c - 1))
  }

  /** Where a name stops in the packet: after its zero byte, or after its first pointer. */
  datatype Stop = Open | AfterZero(next: nat) | AfterPointer(next: nat)

  function StopOf(pkt: seq<byte>, pos: nat): Stop
    decreases |pkt| - pos
  {
    if pos >= |pkt| then Open
    else
      var c := pkt[pos];
      if c == 0 then AfterZero(pos + 1)
      else if IsJump(c) then (if pos + 1 >= |pkt| then Open else AfterPointer(pos + 2))
      else StopOf(pkt, pos + 1 + c)
  }

  // -------------------------------------------------------------------------
  // What decompression means
  // -------------------------------------------------------------------------

  /** What `room` bytes leave of an outcome with more room. */
  predicate Cuts(small: Outcome, big: Outcome, room: int) {
    if big.Good? && ValidLabels(big.name) then small == if |Body(big.name)| <= room then big else NoRoom
    else small.NoRoom? || (big.Bad? && small.Bad?)
  }

  lemma CutsAtEnd(room: nat)
    ensures Cuts(Bad, Bad, room) && Cuts(NoRoom, NoRoom, room) && Cuts(Good([]), Good([]), room)
  {
  }

  lemma CutsLabel(small: Outcome, big: Outcome, text: seq<byte>, room: int)
    requires ValidLabel(text) && (big.Good? ==> ValidLabels(big.name))
    ensures room >= 0 && Cuts(small, big, room) ==>
      Cuts(Prepend([text], small), Prepend([text], big), room + 1 + |text|)
    ensures room < 0 ==> Cuts(NoRoom, Prepend([text], big), room + 1 + |text|)
  {
    hide Body;
    if big.Good? {
      BodyOfCons(text, big.name);
    }
  }

  lemma {:induction false} ExpandCuts(pkt: seq<byte>, pos: nat, jumps: nat, room: nat, more: nat)
    requires room <= more
    ensures Cuts(Expand(pkt, pos, jumps, room), Expand(pkt, pos, jumps, more), room)
    decreases jumps, |pkt| - pos
  {
    hide Cuts, Body, Target, Prepend;
    CutsAtEnd(room);
    if pos < |pkt| && pkt[pos] != 0 {
      var c := pkt[pos];
      if IsJump(c) {
        if pos + 1 < |pkt| && jumps > 0 {
          ExpandCuts(pkt, Target(c, pkt[pos + 1]), jumps - 1, room, more);
        }
      } else if pos + 1 + c <= |pkt| && c + 1 <= more {
        var text := pkt[pos + 1..pos + 1 + c];
        var big := Expand(pkt, pos + 1 + c, jumps, more - c - 1);
        if c + 1 <= room {
          ExpandCuts(pkt, pos + 1 + c, jumps, room - c - 1, more - c - 1);
          CutsLabel(Expand(pkt, pos + 1 + c, jumps, room - c - 1), big, text, room - c - 1);
        } else {
          CutsLabel(NoRoom, big, text, room - c - 1);
        }
      }
    }
  }

  /** Less room only cuts. */
  lemma RoomOnlyCuts(pkt: seq<byte>, pos: nat, jumps: nat, room: nat, more: nat)
    requires room <= more
    ensures var big := Expand(pkt, pos, jumps, more);
      var small := Expand(pkt, pos, jumps, room);
      if big.Good? then small == if |Body(big.name)| <= room then big else NoRoom
      else small.NoRoom? || (big.Bad? && small.Bad?)
  {
    hide Expand, Body;
    ExpandCuts(pkt, pos, jumps, room, more);
  }

  lemma BodyOfCons(text: seq<byte>, rest: Name)
    requires ValidLabel(text) && ValidLabels(rest)
    ensures ValidLabels([text] + rest) && |Body([text] + rest)| == 1 + |text| + |Body(rest)|
  {
    assert ([text] + rest)[1..] == rest;
  }

  /** A larger budget of jumps gives the same name. */
  lemma {:induction false} MoreJumps(pkt: seq<byte>, pos: nat, jumps: nat, more: nat, room: nat)
    requires jumps <= more && Expand(pkt, pos, jumps, room).Good?
    ensures Expand(pkt, pos, more, room) == Expand(pkt, pos, jumps, room)
    decreases jumps, |pkt| - pos
  {
    var c := pkt[pos];
    if c != 0 {
      if IsJump(c) {
        MoreJumps(pkt, Target(c, pkt[pos + 1]), jumps - 1, more - 1, room);
      } else {
        MoreJumps(pkt, pos + 1 + c, jumps, more, room - c - 1);
      }
    }
  }

  /** Labels followed by a pointer stand for these labels before the name at the pointer's target. */
  lemma {:induction false} SharedSuffix(
      pkt: seq<byte>, pos: nat, labels: Name, hi: byte, lo: byte, jumps: nat, room: nat)
    requires ValidLabels(labels) && IsJump(hi) && Target(hi, lo) >= HEADER_SIZE
    requires pos <= |pkt| && Body(labels) + [hi, lo] <= pkt[pos..]
    requires jumps > 0 && |Body(labels)| <= room
    ensures Expand(pkt, pos, jumps, room) ==
      Prepend(labels, Expand(pkt, Target(hi, lo), jumps - 1, room - |Body(labels)|))
    ensures StopOf(pkt, pos) == AfterPointer(pos + |Body(labels)| + 2)
    decreases |labels|
  {
    hide Expand, StopOf, Target, Prepend;
    if labels == [] {
      JumpAhead(pkt, pos, hi, lo, jumps, room);
      PrependNothing(Expand(pkt, Target(hi, lo), jumps - 1, room));
    } else {
      var text, rest := labels[0], labels[1..];
      var n := pos + 1 + |text|;
      LabelAhead(pkt, pos, labels, [hi, lo]);
      ExpandLabel(pkt, pos, jumps, room);
      SharedSuffix(pkt, n, rest, hi, lo, jumps, room - 1 - |text|);
      assert [text] + rest == labels;
      PrependTwice(text, rest, Expand(pkt, Target(hi, lo), jumps - 1, room - |Body(labels)|));
    }
  }

  lemma PrependNothing(o: Outcome)
    ensures Prepend([], o) == o
  {
    assert o.Good? ==> [] + o.name == o.name;
  }

  lemma PrependTwice(text: seq<byte>, rest: Name, o: Outcome)
    ensures Prepend([text], Prepend(rest, o)) == Prepend([text] + rest, o)
  {
    assert o.Good? ==> [text] + (rest + o.name) == [text] + rest + o.name;
  }

  lemma ExpandLabel(pkt: seq<byte>, pos: nat, jumps: nat, room: nat)
    requires pos < |pkt| && 1 <= pkt[pos] <= MAX_LABEL
    requires pos + 1 + pkt[pos] <= |pkt| && pkt[pos] + 1 <= room
    ensures var n := pos + 1 + pkt[pos];
      && Expand(pkt, pos, jumps, room) == Prepend([pkt[pos + 1..n]], Expand(pkt, n, jumps, room - pkt[pos] - 1))
      && StopOf(pkt, pos) == StopOf(pkt, n)
  {
    hide Prepend;
  }

  lemma JumpAhead(pkt: seq<byte>, pos: nat, hi: byte, lo: byte, jumps: nat, room: nat)
    requires IsJump(hi) && Target(hi, lo) >= HEADER_SIZE && jumps > 0
    requires pos <= |pkt| && Body([]) + [hi, lo] <= pkt[pos..]
    ensures Expand(pkt, pos, jumps, room) == Expand(pkt, Target(hi, lo), jumps - 1, room)
    ensures StopOf(pkt, pos) == AfterPointer(pos + 2)
  {
    hide Target;
    var tail := pkt[pos..];
    assert Body([]) + [hi, lo] == [hi, lo];
    assert tail[0] == pkt[pos] == hi && tail[1] == pkt[pos + 1] == lo;
  }

  lemma LabelAhead(pkt: seq<byte>, pos: nat, labels: Name, tail: seq<byte>)
    requires ValidLabels(labels) && labels != [] && pos <= |pkt| && Body(labels) + tail <= pkt[pos..]
    ensures var n := pos + 1 + |labels[0]|;
      && n <= |pkt|
      && pkt[pos] == |labels[0]|
      && pkt[pos + 1..n] == labels[0]
      && Body(labels[1..]) + tail <= pkt[n..]
  {
    var head: seq<byte> := [|labels[0]|] + labels[0];
    assert Body(labels) == head + Body(labels[1..]);
    hide Body;
    Associates(head, Body(labels[1..]), tail);
    PrefixAhead(pkt, pos, labels[0], Body(labels[1..]) + tail);
  }

  lemma PrefixAhead(pkt: seq<byte>, pos: nat, text: seq<byte>, rest: seq<byte>)
    requires |text| < 256 && pos <= |pkt| && [|text|] + text + rest <= pkt[pos..]
    ensures var n := pos + 1 + |text|;
      n <= |pkt| && pkt[pos] == |text| && pkt[pos + 1..n] == text && rest <= pkt[n..]
  {
    var ahead, k := pkt[pos..], 1 + |text|;
    var whole: seq<byte> := [|text|] + text + rest;
    assert ahead[0] == whole[0];
    assert ahead[1..k] == whole[1..k] == text;
    assert whole[k..] == rest;
    assert ahead[k..] == pkt[pos + k..];
  }

  lemma WireSize(name: Name)
    requires ValidLabels(name) && name != []
    ensures |Body(name)| == 1 + |name[0]| + |Body(name[1..])|
    ensures |Encode(name)| == |Body(name)| + 1 && |Encode(name[1..])| == |Body(name[1..])| + 1
  {
  }

  /** A name in plain wire form reads back as itself. */
  lemma {:induction false} PlainName(pkt: seq<byte>, pos: nat, name: Name, jumps: nat, room: nat)
    requires ValidLabels(name) && pos <= |pkt| && Encode(name) <= pkt[pos..]
    requires |Body(name)| <= room
    ensures Expand(pkt, pos, jumps, room) == Good(name)
    ensures StopOf(pkt, pos) == AfterZero(pos + |Encode(name)|)
    decreases |name|
  {
    EncodeHead(pkt, pos, name);
    if name != [] {
      WireSize(name);
      hide Expand, StopOf, Body, Encode;
      ExpandLabel(pkt, pos, jumps, room);
      PlainName(pkt, pos + 1 + |name[0]|, name[1..], jumps, room - 1 - |name[0]|);
      assert [name[0]] + name[1..] == name;
    }
  }

  /** Section 4.1.4 of RFC 1035: two bytes with the top bits set hold the offset of the rest of the name. */
  lemma CompressedName(
      pkt: seq<byte>, pos: nat, labels: Name, top: nat, target: nat, tail: Name, jumps: nat, room: nat)
    requires ValidLabels(labels) && top in {64, 128, 192} && 12 <= target < 0x4000
    requires jumps > 0 && |Body(labels)| <= room
    requires pos <= |pkt| && Body(labels) + [top + target / 256, target % 256] <= pkt[pos..]
    requires Expand(pkt, target, jumps - 1, room - |Body(labels)|) == Good(tail)
    ensures Expand(pkt, pos, jumps, room) == Good(labels + tail)
    ensures StopOf(pkt, pos) == AfterPointer(pos + |Body(labels)| + 2)
  {
    hide Expand, StopOf, Body;
    SharedSuffix(pkt, pos, labels, top + target / 256, target % 256, jumps, room);
  }

  /** No pointer leads into the header. */
  lemma IntoHeader(pkt: seq<byte>, pos: nat, jumps: nat, room: nat)
    requires pos + 1 < |pkt| && pkt[pos] % 64 == 0 && pkt[pos] >= 64 && pkt[pos + 1] < 12
    ensures Expand(pkt, pos, jumps, room) == Bad
  {
  }

  /** At `pos` begins a chain of `k` pointers, at the end of which the name is over. */
  predicate Pointers(pkt: seq<byte>, pos: nat, k: nat)
    decreases k
  {
    if k == 0 then pos < |pkt| && pkt[pos] == 0
    else
      pos + 1 < |pkt| && pkt[pos] >= 192 &&
      var hi: int, lo: int := pkt[pos], pkt[pos + 1];
      (hi - 192) * 256 + lo >= 12 && Pointers(pkt, (hi - 192) * 256 + lo, k - 1)
  }

  lemma {:induction false} PointersTake(pkt: seq<byte>, pos: nat, k: nat, jumps: nat, room: nat)
    requires Pointers(pkt, pos, k)
    ensures Expand(pkt, pos, jumps, room) == if k <= jumps then Good([]) else Bad
    decreases k
  {
    if k > 0 {
      var hi: int, lo: int := pkt[pos], pkt[pos + 1];
      var target := (hi - 192) * 256 + lo;
      assert Target(pkt[pos], pkt[pos + 1]) == target;
      if jumps > 0 {
        PointersTake(pkt, target, k - 1, jumps - 1, room);
      }
    }
  }

  /** The reader follows a hundred pointers, and not one more. */
  lemma HundredPointers(pkt: seq<byte>, pos: nat, k: nat, room: nat)
    requires Pointers(pkt, pos, k)
    ensures Expand(pkt, pos, JUMP_LIMIT, room) == if k <= 100 then Good([]) else Bad
  {
    PointersTake(pkt, pos, k, JUMP_LIMIT, room);
  }

  /** A name that the end of the packet cuts off is refused. */
  lemma {:induction false} CutOff(pkt: seq<byte>, pos: nat, name: Name, jumps: nat, room: nat)
    requires ValidLabels(name) && pos <= |pkt| && pkt[pos..] < Encode(name) && |Body(name)| <= room
    ensures Expand(pkt, pos, jumps, room) == Bad && StopOf(pkt, pos) == Open
    decreases |name|
  {
    if name != [] && pos < |pkt| {
      var tail, n := pkt[pos..], 1 + |name[0]|;
      assert tail[0] == pkt[pos] == |name[0]|;
      if |tail| >= n {
        WireSize(name);
        assert Encode(name)[n..] == Encode(name[1..]);
        assert pkt[pos + n..] == tail[n..];
        CutOff(pkt, pos + n, name[1..], jumps, room - n);
      }
    }
  }

  /** A pointer to itself never ends, and no budget makes it a name. */
  lemma {:induction false} SelfPointer(pkt: seq<byte>, pos: nat, jumps: nat, room: nat)
    requires pos + 1 < |pkt| && IsJump(pkt[pos]) && Target(pkt[pos], pkt[pos + 1]) == pos
    ensures Expand(pkt, pos, jumps, room) == Bad
    decreases jumps
  {
    if jumps > 0 {
      SelfPointer(pkt, pos, jumps - 1, room);
    }
  }

  /** What expands also stops. */
  lemma {:induction false} ExpandStops(pkt: seq<byte>, pos: nat, jumps: nat, room: nat)
    requires Expand(pkt, pos, jumps, room).Good?
    ensures !StopOf(pkt, pos).Open?
    decreases |pkt| - pos
  {
    var c := pkt[pos];
    if c != 0 && !IsJump(c) {
      ExpandStops(pkt, pos + 1 + c, jumps, room - c - 1);
    }
  }

  // -------------------------------------------------------------------------
  // The length of what is read
  // -------------------------------------------------------------------------

  /** The wire form fits into the room if and only if the same call with a byte less finds the name. */
  lemma ReadFitsIff(pkt: seq<byte>, pos: nat, jumps: nat, room: nat)
    requires room > 0 && Expand(pkt, pos, jumps, room).Good?
    ensures var name := Expand(pkt, pos, jumps, room).name;
      && |Encode(name)| <= room + 1
      && (|Encode(name)| <= room <==> Expand(pkt, pos, jumps, room - 1) == Good(name))
  {
    hide Expand, Body;
    RoomOnlyCuts(pkt, pos, jumps, room - 1, room);
    RoomOnlyCuts(pkt, pos, jumps, room, room);
  }

  /**
   * With a limit below 255, what is read is always a well-formed name; at 255, it is one if and only
   * if a limit of 254 finds it too.
   */
  lemma ReadIsWellFormedIff(pkt: seq<byte>, pos: nat, jumps: nat, room: nat)
    requires room <= MAX_DN && Expand(pkt, pos, jumps, room).Good?
    ensures var name := Expand(pkt, pos, jumps, room).name;
      WellFormed(name) <==> room < MAX_DN || Expand(pkt, pos, jumps, MAX_DN - 1) == Good(name)
  {
    hide Expand, Body;
    RoomOnlyCuts(pkt, pos, jumps, room, room);
    if room == MAX_DN {
      ReadFitsIff(pkt, pos, jumps, room);
    }
  }

  /** The read at `pos` with limit `lim` stays inside a buffer of `lim` bytes. */
  predicate StaysInside(pkt: seq<byte>, pos: nat, lim: nat) {
    lim > 0 && Expand(pkt, pos, JUMP_LIMIT, lim).Good? ==>
      Expand(pkt, pos, JUMP_LIMIT, lim - 1) == Expand(pkt, pos, JUMP_LIMIT, lim)
  }

  // -------------------------------------------------------------------------
  // The reader
  // -------------------------------------------------------------------------

  /** The state of the loop of `dns_getdn`; `jump` is negative before the first pointer. */
  ghost predicate Reading(
      pkt: seq<byte>, cur: nat, lim: nat, pp: nat, dp: nat, jump: int, left: nat, done: Name, out: seq<byte>) {
    && ValidLabels(done)
    && dp <= lim && dp <= |out| && out[..dp] == Body(done)
    && Prepend(done, Expand(pkt, pp, left, lim - dp)) == Expand(pkt, cur, JUMP_LIMIT, lim)
    && (if jump < 0 then StopOf(pkt, pp) == StopOf(pkt, cur) else StopOf(pkt, cur) == AfterPointer(jump))
  }

  lemma ReadingStarts(pkt: seq<byte>, cur: nat, lim: nat, out: seq<byte>)
    ensures Reading(pkt, cur, lim, cur, 0, -1, JUMP_LIMIT, [], out)
  {
    hide Expand;
    var o := Expand(pkt, cur, JUMP_LIMIT, lim);
    assert o.Good? ==> [] + o.name == o.name;
  }

  lemma ReadingJump(
      pkt: seq<byte>, cur: nat, lim: nat, pp: nat, dp: nat, jump: int, left: nat, done: Name, out: seq<byte>)
    requires Reading(pkt, cur, lim, pp, dp, jump, left, done, out) && pp < |pkt| && IsJump(pkt[pp])
    ensures pp + 1 >= |pkt| || left == 0 || Target(pkt[pp], pkt[pp + 1]) < HEADER_SIZE ==>
      Expand(pkt, cur, JUMP_LIMIT, lim) == Bad
    ensures pp + 1 < |pkt| && left > 0 && Target(pkt[pp], pkt[pp + 1]) >= HEADER_SIZE ==>
      Reading(pkt, cur, lim, Target(pkt[pp], pkt[pp + 1]), dp, if jump < 0 then pp + 2 else jump, left - 1, done, out)
  {
    hide Target, Body;
  }

  lemma ReadingLabel(
      pkt: seq<byte>, cur: nat, lim: nat, pp: nat, dp: nat, jump: int, left: nat, done: Name, out: seq<byte>,
      next: seq<byte>)
    requires Reading(pkt, cur, lim, pp, dp, jump, left, done, out) && pp < |pkt| && 1 <= pkt[pp] < 64
    ensures var c := pkt[pp];
      pp + 1 + c > |pkt| ==> Expand(pkt, cur, JUMP_LIMIT, lim) == Bad
    ensures var c := pkt[pp];
      pp + 1 + c <= |pkt| && dp + c + 1 > lim ==> Expand(pkt, cur, JUMP_LIMIT, lim) == NoRoom
    ensures var c := pkt[pp];
      pp + 1 + c <= |pkt| && dp + c + 1 <= lim && dp + c + 1 <= |next|
      && next[..dp] == out[..dp] && next[dp] == c && next[dp + 1..dp + 1 + c] == pkt[pp + 1..pp + 1 + c] ==>
        Reading(pkt, cur, lim, pp + 1 + c, dp + 1 + c, jump, left, done + [pkt[pp + 1..pp + 1 + c]], next)
  {
    hide Body;
    var c := pkt[pp];
    if pp + 1 + c <= |pkt| && dp + c + 1 <= lim && dp + c + 1 <= |next| {
      var text := pkt[pp + 1..pp + 1 + c];
      BodyAppend(done, text);
      assert next[..dp + 1 + c] == next[..dp] + [next[dp]] + next[dp + 1..dp + 1 + c];
      var o := Expand(pkt, pp + 1 + c, left, lim - dp - c - 1);
      assert o.Good? ==> done + ([text] + o.name) == done + [text] + o.name;
    }
  }

  lemma ReadingEnd(
      pkt: seq<byte>, cur: nat, lim: nat, pp: nat, dp: nat, jump: int, left: nat, done: Name, out: seq<byte>)
    requires Reading(pkt, cur, lim, pp, dp, jump, left, done, out)
    ensures pp >= |pkt| ==> Expand(pkt, cur, JUMP_LIMIT, lim) == Bad
    ensures pp < |pkt| && pkt[pp] == 0 ==>
      && Expand(pkt, cur, JUMP_LIMIT, lim) == Good(done)
      && |Encode(done)| == dp + 1
      && StopOf(pkt, cur) == if jump < 0 then AfterZero(pp + 1) else AfterPointer(jump)
    ensures pp < |pkt| && pkt[pp] == 0 && dp < |out| ==> out[dp := 0][..dp + 1] == Encode(done)
  {
    hide Body;
    assert done + [] == done;
    if dp < |out| {
      assert out[dp := 0][..dp + 1] == out[..dp] + [0];
    }
  }

  /**
   * `dns_getdn`. The terminator is put out even when the labels fill the room: a buffer of just
   * `dnsiz` (or 255) bytes is enough exactly if this read stays inside.
   */
  method GetDn(pkt: seq<byte>, cur: nat, dn: array<byte>, dnsiz: nat) returns (r: int, next: nat)
    requires var lim := if dnsiz < MAX_DN then dnsiz else MAX_DN;
      dn.Length >= lim && (dn.Length > lim || StaysInside(pkt, cur, lim))
    modifies dn
    ensures var lim := if dnsiz < MAX_DN then dnsiz else MAX_DN;
      match Expand(pkt, cur, JUMP_LIMIT, lim)
      case Bad => r == -1 && next == cur
      case NoRoom => r == (if dnsiz < MAX_DN then 0 else -1) && next == cur
      case Good(name) =>
        if dnsiz == 0 then r == 0 && next == cur
        else
          && r == |Encode(name)| <= lim + 1
          && (StaysInside(pkt, cur, lim) <==> r <= lim)
          && dn[..r] == Encode(name)
          && !StopOf(pkt, cur).Open?
          && next == StopOf(pkt, cur).next
    ensures r <= 0 ==> next == cur
  {
    hide Expand, StopOf, Reading, Body, Encode, Target, Prepend, IsJump, ValidLabels;
    var lim := if dnsiz < MAX_DN then dnsiz else MAX_DN;
    var pp, dp, jump, loop := cur, 0, -1, 100;
    next := cur;
    ghost var done: Name := [];
    ReadingStarts(pkt, cur, lim, dn[..]);
    while true
      invariant 0 <= pp && 0 <= dp <= lim && 1 <= loop <= 100 && next == cur
      invariant Reading(pkt, cur, lim, pp, dp, jump, if jump < 0 then 100 else loop - 1, done, dn[..])
      invariant jump < 0 ==> loop == 100
      decreases if jump < 0 then 100 else loop - 1, |pkt| - pp
    {
      ghost var left := if jump < 0 then 100 else loop - 1;
      ReadingEnd(pkt, cur, lim, pp, dp, jump, left, done, dn[..]);
      if pp >= |pkt| {
        return -1, cur;
      }
      var c := pkt[pp];
      if c == 0 {
        if lim == 0 {
          return if dnsiz < MAX_DN then 0 else -1, cur;
        }
        ReadFitsIff(pkt, cur, JUMP_LIMIT, lim);
        dn[dp] := 0;
        dp, pp := dp + 1, pp + 1;
        return dp, if jump < 0 then pp else jump;
      }
      if c >= 64 {
        JumpMeans(c);
        ReadingJump(pkt, cur, lim, pp, dp, jump, left, done, dn[..]);
        if pp + 1 >= |pkt| {
          return -1, cur;
        }
        if jump < 0 {
          jump := pp + 2;
        } else {
          loop := loop - 1;
          if loop == 0 {
            return -1, cur;
          }
        }
        var target := c % 64 * 256 + pkt[pp + 1];
        TargetMeans(c, pkt[pp + 1]);
        if target < HEADER_SIZE {
          return -1, cur;
        }
        pp := target;
        continue;
      }
      var out := dn[..];
      if pp + 1 + c > |pkt| {
        ReadingLabel(pkt, cur, lim, pp, dp, jump, left, done, out, out);
        return -1, cur;
      }
      if dp + c + 1 > lim {
        ReadingLabel(pkt, cur, lim, pp, dp, jump, left, done, out, out);
        return if dnsiz < MAX_DN then 0 else -1, cur;
      }
      dn[dp] := c;
      forall k | 0 <= k < c {
        dn[dp + 1 + k] := pkt[pp + 1 + k];
      }
      ReadingLabel(pkt, cur, lim, pp, dp, jump, left, done, out, dn[..]);
      done := done + [pkt[pp + 1..pp + 1 + c]];
      dp, pp := dp + 1 + c, pp + 1 + c;
    }
  }

  lemma JumpMeans(c: byte)
    ensures IsJump(c) <==> c >= 64
  {
  }

  lemma TargetMeans(hi: byte, lo: byte)
    ensures Target(hi, lo) == hi % 64 * 256 + lo
  {
  }

  /** Four labels of 63, 63, 63 and 62 bytes: their wire form has 256 bytes, and is read. */
  lemma OneByteTooLong(text: seq<byte>)
    requires |text| == 63
    ensures var name := [text, text, text, text[1..]];
      && ValidLabels(name)
      && |Encode(name)| == 256
      && forall header: seq<byte> | |header| == 12 ::
        && Expand(header + Encode(name), 12, JUMP_LIMIT, 255) == Good(name)
        && !StaysInside(header + Encode(name), 12, 255)
  {
    var last := text[1..];
    var name := [text, text, text, last];
    BodyOfCons(last, []);
    assert [last] + [] == [last];
    BodyOfCons(text, [last]);
    assert [text] + [last] == [text, last];
    BodyOfCons(text, [text, last]);
    assert [text] + [text, last] == [text, text, last];
    BodyOfCons(text, [text, text, last]);
    assert [text] + [text, text, last] == name;
    forall header: seq<byte> | |header| == HEADER_SIZE
      ensures Expand(header + Encode(name), HEADER_SIZE, JUMP_LIMIT, MAX_DN) == Good(name)
      ensures !StaysInside(header + Encode(name), HEADER_SIZE, MAX_DN)
    {
      var pkt := header + Encode(name);
      assert pkt[HEADER_SIZE..] == Encode(name);
      PlainName(pkt, HEADER_SIZE, name, JUMP_LIMIT, MAX_DN);
      ReadFitsIff(pkt, HEADER_SIZE, JUMP_LIMIT, MAX_DN);
    }
  }

  // -------------------------------------------------------------------------
  // Skipping
  // -------------------------------------------------------------------------

  /**
   * `dns_skipdn` finds the place where reading stops, but not after a pointer that ends the packet.
   */
  method SkipDn(pkt: seq<byte>, cur: nat) returns (found: bool, next: nat)
    ensures match StopOf(pkt, cur)
      case Open => !found
      case AfterZero(n) => found && next == n
      case AfterPointer(n) => found == (n < |pkt|) && (found ==> next == n)
  {
    var p := cur;
    while true
      invariant 0 <= p && StopOf(pkt, p) == StopOf(pkt, cur)
      decreases |pkt| - p
    {
      if p >= |pkt| {
        return false, p;
      }
      var c := pkt[p];
      p := p + 1;
      if c == 0 {
        return true, p;
      }
      if c >= 64 {
        if p + 1 >= |pkt| {
          return false, p;
        }
        return true, p + 1;
      }
      p := p + c;
    }
  }

  /** Where a name can be read, skipping gives the same place unless a pointer ends the packet. */
  lemma SkipAgrees(pkt: seq<byte>, cur: nat, jumps: nat, room: nat)
    requires Expand(pkt, cur, jumps, room).Good?
    ensures !StopOf(pkt, cur).Open? && cur < StopOf(pkt, cur).next <= |pkt|
  {
    ExpandStops(pkt, cur, jumps, room);
    StopIsAhead(pkt, cur);
  }

  lemma {:induction false} StopIsAhead(pkt: seq<byte>, pos: nat)
    requires !StopOf(pkt, pos).Open?
    ensures pos < StopOf(pkt, pos).next <= |pkt|
    decreases |pkt| - pos
  {
    var c := pkt[pos];
    if c != 0 && !IsJump(c) {
      StopIsAhead(pkt, pos + 1 + c);
    }
  }

  /** A name that is a pointer to a root name, at the end of the packet: it is read, but not skipped. */
  lemma PointerAtTheEnd(header: seq<byte>)
    requires |header| == HEADER_SIZE
    ensures var pkt := header + [0, 192, 12];
      && Expand(pkt, 13, JUMP_LIMIT, MAX_DN) == Good([])
      && StopOf(pkt, 13) == AfterPointer(|pkt|)
  {
    var pkt := header + [0, 192, 12];
    assert pkt[12] == 0 && pkt[13] == 192 && pkt[14] == 12;
    assert Target(192, 12) == 12;
  }
}
