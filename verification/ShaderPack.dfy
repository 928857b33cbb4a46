/** The canonical shader pack shared by the compiler and the submit wire. */
module ShaderPack {
  /** One of the fifteen canonical shader programs. */
  type Variant = x: int | 0 <= x < 15

  /** The size in bytes of each program's binary. */
  type ShaderSizes = s: seq<int> | |s| == 15 && forall i | 0 <= i < |s| :: 0 < s[i] < 0x1_0000_0000_0000_0000
    witness seq(15, _ => 1)
}
