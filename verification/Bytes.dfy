/** Bytes and the little-endian integers built from them, shared by the binary formats. */
module Bytes {
  type byte = x: int | 0 <= x < 256

  // `s` stands in `file` from position `at` on.
  ghost predicate IsAt<T>(file: seq<T>, at: nat, s: seq<T>) {
    at + |s| <= |file| && file[at..at + |s|] == s
  }

  lemma {:induction false} IsAtConcat<T>(file: seq<T>, at: nat, a: seq<T>, b: seq<T>)
    ensures IsAt(file, at, a + b) <==> IsAt(file, at, a) && IsAt(file, at + |a|, b)
  {
    if IsAt(file, at, a + b) {
      assert a == (a + b)[..|a|] == file[at..at + |a|];
      assert b == (a + b)[|a|..] == file[at + |a|..at + |a| + |b|];
    }
    if IsAt(file, at, a) && IsAt(file, at + |a|, b) {
      assert a + b == file[at..at + |a| + |b|];
    }
  }
}
