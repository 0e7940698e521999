/** Machine words of the C program, and the Option type used by every module. */
module Words {
  datatype Option<+T> = None | Some(value: T)

  const U32: nat := 0x1_0000_0000
  const U64: nat := 0x1_0000_0000_0000_0000

  type uint32 = x: int | 0 <= x < U32

  /** Unsigned 64-bit subtraction: it wraps when b > a. */
  function Sub64(a: nat, b: nat): nat {
    (a - b) % U64
  }

  lemma Sub64Forward(a: nat, b: nat)
    requires b <= a < U64
    ensures Sub64(a, b) == a - b
  {
  }

  /** Unsigned 32-bit addition. */
  function Add32(a: uint32, b: uint32): uint32 {
    (a + b) % U32
  }
}

/** Sequence facts that the verifier does not find in larger proofs. */
module Seqs {
  lemma DropDrop<T>(s: seq<T>, a: nat, b: nat)
    requires a + b <= |s|
    ensures s[a..][b..] == s[a + b..]
  {
  }

  lemma DropLeft<T>(s: seq<T>, t: seq<T>, n: nat)
    requires n <= |s|
    ensures (s + t)[n..] == s[n..] + t
  {
  }

  lemma Assoc<T>(s: seq<T>, t: seq<T>, u: seq<T>)
    ensures s + (t + u) == s + t + u
  {
  }
}
