/** Small operations on sequences and sets that several modules share. */
module Sequences {

  datatype Option<T> = None | Some(value: T)

  function Without<T>(s: seq<T>, k: nat): (r: seq<T>)
    requires k < |s|
    ensures |r| == |s| - 1
  {
    s[..k] + s[k + 1..]
  }

  function With<T>(s: seq<T>, n: nat, x: T): (r: seq<T>)
    requires n <= |s|
    ensures |r| == |s| + 1
  {
    s[..n] + [x] + s[n..]
  }

  lemma InsertThenRemove<T>(s: seq<T>, n: nat, x: T)
    requires n <= |s|
    ensures Without(With(s, n, x), n) == s
  {
  }

  lemma SplitAt<T>(s: seq<T>, k: nat)
    requires k < |s|
    ensures s == s[..k] + [s[k]] + s[k + 1..]
  {
  }

  lemma Associates<T>(x: seq<T>, y: seq<T>, z: seq<T>)
    ensures x + (y + z) == x + y + z
  {
  }

  lemma {:induction false} SubsetSize<T>(a: set<T>, b: set<T>)
    requires a <= b
    ensures |a| <= |b|
    decreases |a|
  {
    if a != {} {
      var x :| x in a;
      SubsetSize(a - {x}, b - {x});
    }
  }
}
