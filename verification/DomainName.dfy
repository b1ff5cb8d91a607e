/** Domain names in wire form: a length byte before each label, and a zero byte at the end. */
module DomainName {
  import opened Sequences

  type byte = b: int | 0 <= b < 256

  type Name = seq<seq<byte>>

  const MAX_DN := 255
  const MAX_LABEL := 63
  const MAX_NAME := 1024

  predicate ValidLabel(text: seq<byte>) {
    1 <= |text| <= MAX_LABEL
  }

  predicate ValidLabels(name: Name) {
    forall i | 0 <= i < |name| :: ValidLabel(name[i])
  }

  /** The labels with their length bytes, without the final zero. */
  function Body(name: Name): seq<byte>
    requires ValidLabels(name)
  {
    if name == [] then [] else [|name[0]|] + name[0] + Body(name[1..])
  }

  function Encode(name: Name): seq<byte>
    requires ValidLabels(name)
  {
    Body(name) + [0]
  }

  /** A name that RFC 1035 allows: section 2.3.4 limits the labels and the whole. */
  predicate WellFormed(name: Name) {
    ValidLabels(name) && |Encode(name)| <= MAX_DN
  }

  /** The limits of section 2.3.4 of RFC 1035. */
  lemma WellFormedMeans(name: Name)
    ensures WellFormed(name) <==>
      (forall i | 0 <= i < |name| :: 1 <= |name[i]| <= 63) && ValidLabels(name) && |Encode(name)| <= 255
  {
  }

  lemma {:induction false} BodyAppend(name: Name, text: seq<byte>)
    requires ValidLabels(name) && ValidLabel(text)
    ensures ValidLabels(name + [text])
    ensures Body(name + [text]) == Body(name) + [|text|] + text
  {
    if name == [] {
      assert name + [text] == [text];
      assert [text][1..] == [];
    } else {
      assert (name + [text])[1..] == name[1..] + [text];
      BodyAppend(name[1..], text);
    }
  }

  lemma {:induction false} BodyConcat(a: Name, b: Name)
    requires ValidLabels(a) && ValidLabels(b)
    ensures ValidLabels(a + b) && Body(a + b) == Body(a) + Body(b)
  {
    if a == [] {
      assert a + b == b;
    } else {
      assert (a + b)[1..] == a[1..] + b;
      BodyConcat(a[1..], b);
      Associates([|a[0]|] + a[0], Body(a[1..]), Body(b));
    }
  }

  /** What stands at the head of a wire form. */
  lemma EncodeHead(dn: seq<byte>, at: nat, name: Name)
    requires ValidLabels(name) && at <= |dn| && Encode(name) <= dn[at..]
    ensures at < |dn|
    ensures name == [] <==> dn[at] == 0
    ensures name != [] ==>
      && dn[at] == |name[0]|
      && at + 1 + |name[0]| <= |dn|
      && dn[at + 1..at + 1 + |name[0]|] == name[0]
      && Encode(name[1..]) <= dn[at + 1 + |name[0]|..]
  {
    var tail := dn[at..];
    assert tail[0] == dn[at] && tail[0] == Encode(name)[0];
    if name != [] {
      var n := 1 + |name[0]|;
      assert Encode(name)[1..n] == name[0];
      assert tail[1..n] == name[0];
      assert Encode(name)[n..] == Encode(name[1..]);
      assert tail[n..] == dn[at + n..];
    }
  }

  /** The wire form determines the name, and no wire form starts another one. */
  lemma {:induction false} EncodeInjective(a: Name, b: Name)
    requires ValidLabels(a) && ValidLabels(b) && Encode(a) <= Encode(b)
    ensures a == b
    decreases |a|
  {
    var dn := Encode(b);
    assert dn[0..] == dn;
    EncodeHead(dn, 0, a);
    EncodeHead(dn, 0, b);
    if a != [] {
      var n := 1 + |a[0]|;
      assert dn[n..] == Encode(b[1..]);
      EncodeInjective(a[1..], b[1..]);
      assert a == [a[0]] + a[1..] && b == [b[0]] + b[1..];
    }
  }

  /** `dns_dnlen`. */
  method DnLen(dn: seq<byte>, ghost name: Name) returns (n: nat)
    requires ValidLabels(name) && Encode(name) <= dn
    ensures n == |Encode(name)|
  {
    var d := 0;
    ghost var rest := name;
    assert dn[0..] == dn;
    EncodeHead(dn, 0, name);
    while dn[d] != 0
      invariant d < |dn| && ValidLabels(rest) && Encode(rest) <= dn[d..]
      invariant d + |Encode(rest)| == |Encode(name)|
      decreases |dn| - d
    {
      EncodeHead(dn, d, rest);
      d := d + 1 + dn[d];
      rest := rest[1..];
      EncodeHead(dn, d, rest);
    }
    EncodeHead(dn, d, rest);
    n := d + 1;
  }

  /** `dns_dnlabels`. */
  method DnLabels(dn: seq<byte>, ghost name: Name) returns (labels: nat)
    requires ValidLabels(name) && Encode(name) <= dn
    ensures labels == |name|
  {
    labels := 0;
    var d := 0;
    ghost var rest := name;
    assert dn[0..] == dn;
    EncodeHead(dn, 0, name);
    while dn[d] != 0
      invariant d < |dn| && ValidLabels(rest) && Encode(rest) <= dn[d..]
      invariant labels + |rest| == |name|
      decreases |dn| - d
    {
      EncodeHead(dn, d, rest);
      labels, d := labels + 1, d + 1 + dn[d];
      rest := rest[1..];
      EncodeHead(dn, d, rest);
    }
    EncodeHead(dn, d, rest);
  }

  function Lower(b: byte): byte {
    if 65 <= b <= 90 then b - 65 + 97 else b
  }

  predicate SameLabel(a: seq<byte>, b: seq<byte>) {
    |a| == |b| && forall i | 0 <= i < |a| :: Lower(a[i]) == Lower(b[i])
  }

  /** Equality of names: the letters' case does not matter. */
  predicate SameName(a: Name, b: Name) {
    |a| == |b| && forall i | 0 <= i < |a| :: SameLabel(a[i], b[i])
  }

  /** Names are the same if their labels are, byte by byte, but for the case of the letters of ASCII. */
  lemma SameNameIff(a: Name, b: Name)
    ensures SameName(a, b) <==>
      && |a| == |b|
      && (forall i | 0 <= i < |a| :: |a[i]| == |b[i]|)
      && forall i, j | 0 <= i < |a| && 0 <= j < |a[i]| ::
           || a[i][j] == b[i][j]
           || (65 <= a[i][j] <= 90 && b[i][j] == a[i][j] + 32)
           || (65 <= b[i][j] <= 90 && a[i][j] == b[i][j] + 32)
  {
    if SameName(a, b) {
      forall i, j | 0 <= i < |a| && 0 <= j < |a[i]|
        ensures a[i][j] == b[i][j] || (65 <= a[i][j] <= 90 && b[i][j] == a[i][j] + 32)
          || (65 <= b[i][j] <= 90 && a[i][j] == b[i][j] + 32)
      {
        assert SameLabel(a[i], b[i]);
        assert Lower(a[i][j]) == Lower(b[i][j]);
      }
    }
  }

  lemma SameNameStep(a: Name, b: Name)
    ensures a == [] && b == [] ==> SameName(a, b)
    ensures (a == []) != (b == []) ==> !SameName(a, b)
    ensures a != [] && b != [] ==>
      (SameName(a, b) <==> SameLabel(a[0], b[0]) && SameName(a[1..], b[1..]))
  {
    if a != [] && b != [] && SameLabel(a[0], b[0]) && SameName(a[1..], b[1..]) {
      forall i | 0 <= i < |a|
        ensures SameLabel(a[i], b[i])
      {
        if i > 0 {
          assert SameLabel(a[1..][i - 1], b[1..][i - 1]);
        }
      }
    }
    if a != [] && b != [] && SameName(a, b) {
      forall i | 0 <= i < |a| - 1
        ensures SameLabel(a[1..][i], b[1..][i])
      {
        assert SameLabel(a[i + 1], b[i + 1]);
      }
    }
  }

  /** The inner loop of `dns_dnequal`: `c` bytes from either name. */
  method EqualBytes(dn1: seq<byte>, dn2: seq<byte>, i: nat, j: nat, c: nat) returns (same: bool)
    requires i + c <= |dn1| && j + c <= |dn2|
    ensures same <==> SameLabel(dn1[i..i + c], dn2[j..j + c])
  {
    ghost var x, y := dn1[i..i + c], dn2[j..j + c];
    var left := c;
    while left > 0
      invariant 0 <= left <= c
      invariant forall m | 0 <= m < c - left :: Lower(x[m]) == Lower(y[m])
    {
      var m := c - left;
      assert x[m] == dn1[i + m] && y[m] == dn2[j + m];
      if Lower(dn1[i + m]) != Lower(dn2[j + m]) {
        return false;
      }
      left := left - 1;
    }
    return true;
  }

  /** `dns_dnequal`: the length of the names if they are the same, and zero if not. */
  method DnEqual(dn1: seq<byte>, dn2: seq<byte>, ghost a: Name, ghost b: Name) returns (n: nat)
    requires ValidLabels(a) && Encode(a) <= dn1
    requires ValidLabels(b) && Encode(b) <= dn2
    ensures n == if SameName(a, b) then |Encode(a)| else 0
  {
    hide SameName, SameLabel;
    var i, j := 0, 0;
    ghost var p, q := a, b;
    assert dn1[0..] == dn1 && dn2[0..] == dn2;
    while true
      invariant 0 <= i <= |dn1| && 0 <= j <= |dn2| && ValidLabels(p) && ValidLabels(q)
      invariant Encode(p) <= dn1[i..] && Encode(q) <= dn2[j..]
      invariant SameName(a, b) == SameName(p, q)
      invariant i + |Encode(p)| == |Encode(a)|
      decreases |p|
    {
      EncodeHead(dn1, i, p);
      EncodeHead(dn2, j, q);
      SameNameStep(p, q);
      var c := dn1[i];
      if c != dn2[j] {
        if p != [] && q != [] {
          LengthsDiffer(p[0], q[0]);
        }
        return 0;
      }
      if c == 0 {
        return i + 1;
      }
      var same := EqualBytes(dn1, dn2, i + 1, j + 1, c);
      if !same {
        return 0;
      }
      i, j := i + 1 + c, j + 1 + c;
      p, q := p[1..], q[1..];
    }
  }

  lemma LengthsDiffer(a: seq<byte>, b: seq<byte>)
    requires |a| != |b|
    ensures !SameLabel(a, b)
  {
  }
}
