/** Bytes, and ASCII letters compared without their case. */
module Ascii {
  type Byte = b: nat | b < 256

  function Lower(b: Byte): Byte {
    if 'A' as int <= b <= 'Z' as int then b + 32 else b
  }

  function Folded(t: seq<Byte>): (f: seq<Byte>)
    ensures |f| == |t| && forall i :: 0 <= i < |t| ==> f[i] == Lower(t[i])
  {
    seq(|t|, i requires 0 <= i < |t| => Lower(t[i]))
  }

  // Folding forgets the case of letters and nothing else.
  lemma FoldedForgetsCase(a: seq<Byte>, b: seq<Byte>)
    ensures Folded(Folded(a)) == Folded(a)
    ensures Folded(a) == Folded(b) <==>
            |a| == |b| && forall i :: 0 <= i < |a| ==> a[i] == b[i] || SameLetter(a[i], b[i])
  {
    if Folded(a) == Folded(b) {
      forall i | 0 <= i < |a| ensures a[i] == b[i] || SameLetter(a[i], b[i]) {
        assert Folded(a)[i] == Folded(b)[i];
      }
    }
  }

  predicate SameLetter(a: Byte, b: Byte) {
    || ('A' as int <= a <= 'Z' as int && b == a + 32)
    || ('A' as int <= b <= 'Z' as int && a == b + 32)
  }
}
