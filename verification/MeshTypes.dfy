/** Names shared by every part of the model. */
module MeshTypes {

  /** A peer identifier. The program only ever compares the 32 bytes for equality. */
  datatype PeerId = PeerId(id: nat)

  datatype Option<+T> = None | Some(value: T)

  type Byte = x: int | 0 <= x < 256
  type Bytes = seq<Byte>

  /** Number of values of the program's 64-bit counters, which wrap to zero. */
  const U64_MODULUS: nat := 0x1_0000_0000_0000_0000

  /** Looks a key up, with the value the program uses when the key is missing. */
  function GetOr<K, V>(m: map<K, V>, k: K, default: V): (r: V) {
    if k in m then m[k] else default
  }

  ghost predicate NoRepeats<T>(s: seq<T>) {
    forall i, j | 0 <= i < j < |s| :: s[i] != s[j]
  }

  function Reversed<T>(s: seq<T>): (r: seq<T>) {
    if s == [] then [] else [s[|s| - 1]] + Reversed(s[..|s| - 1])
  }
}
