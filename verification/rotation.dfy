/** Left rotation of a sequence: the effect on a FIFO queue of repeatedly
    taking the head and putting it back at the tail. */
module Rotation {
  import opened Arith

  /** `s` rotated left by `k` places (by `k mod |s|`); the empty sequence is
      its own rotation. */
  function RotateLeft<T>(s: seq<T>, k: nat): (r: seq<T>)
    ensures |r| == |s|
  {
    seq(|s|, j requires 0 <= j < |s| => s[(k + j) % |s|])
  }

  /** Rotating by nothing leaves the sequence as it is. */
  lemma RotateLeftZero<T>(s: seq<T>)
    ensures RotateLeft(s, 0) == s
  {
  }

  /** The rotation by `k` is the suffix from position `k mod n` followed by
      the prefix before it. */
  lemma RotateLeftSplit<T>(s: seq<T>, k: nat)
    requires |s| > 0
    ensures RotateLeft(s, k) == s[k % |s|..] + s[..k % |s|]
  {
    var n := |s|;
    var m := k % n;
    var t := s[m..] + s[..m];
    assert k == n * (k / n) + m;
    forall j | 0 <= j < n
      ensures RotateLeft(s, k)[j] == t[j]
    {
      if j < n - m {
        DivModUnique(k + j, n, k / n, m + j);
      } else {
        DivModUnique(k + j, n, k / n + 1, m + j - n);
      }
    }
  }

  /** Taking the head of a rotation by `k` and putting it at the tail gives
      the rotation by `k + 1`; the head is element `k mod n`. */
  lemma RotateLeftStep<T>(s: seq<T>, k: nat)
    requires |s| > 0
    ensures RotateLeft(s, k)[0] == s[k % |s|]
    ensures RotateLeft(s, k)[1..] + [RotateLeft(s, k)[0]] == RotateLeft(s, k + 1)
  {
    var n := |s|;
    var r := RotateLeft(s, k);
    var t := r[1..] + [r[0]];
    forall j | 0 <= j < n
      ensures t[j] == RotateLeft(s, k + 1)[j]
    {
      if j < n - 1 {
        assert t[j] == r[j + 1];
      } else {
        ModAddMultiple(k, 1, n);
      }
    }
  }

  lemma RotateLeftComposeAt<T>(s: seq<T>, a: nat, b: nat, j: nat)
    requires j < |s|
    ensures RotateLeft(RotateLeft(s, a), b)[j] == RotateLeft(s, a + b)[j]
  {
    ModAddMod(a, b + j, |s|);
    assert a + b + j == a + (b + j);
  }

  /** Rotating by `a` and then by `b` is rotating by `a + b`. */
  lemma RotateLeftCompose<T>(s: seq<T>, a: nat, b: nat)
    ensures RotateLeft(RotateLeft(s, a), b) == RotateLeft(s, a + b)
  {
    forall j | 0 <= j < |s|
      ensures RotateLeft(RotateLeft(s, a), b)[j] == RotateLeft(s, a + b)[j]
    {
      RotateLeftComposeAt(s, a, b, j);
    }
  }

  /** The first `len` steps of the endless cyclic walk over `s`: step j
      visits `s[j mod n]`. */
  function Cycle<T>(s: seq<T>, len: nat): (r: seq<T>)
    requires |s| > 0
    ensures |r| == len
  {
    seq(len, j requires 0 <= j < len => s[j % |s|])
  }

  /** One more step of the walk visits entry `len mod n`. */
  lemma CycleExtend<T>(s: seq<T>, len: nat)
    requires |s| > 0
    ensures Cycle(s, len + 1) == Cycle(s, len) + [s[len % |s|]]
  {
  }

  /** Walking `a` steps and then `b` steps from the queue rotated by `a` is
      walking `a + b` steps. */
  lemma CycleConcat<T>(s: seq<T>, a: nat, b: nat)
    requires |s| > 0
    ensures Cycle(s, a) + Cycle(RotateLeft(s, a), b) == Cycle(s, a + b)
  {
    var lhs := Cycle(s, a) + Cycle(RotateLeft(s, a), b);
    forall j | a <= j < a + b
      ensures lhs[j] == Cycle(s, a + b)[j]
    {
      ModAddMod(a, j - a, |s|);
    }
  }
}
