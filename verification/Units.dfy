/** JavaScript strings: sequences of UTF-16 code units, lone surrogates included. */
module Units {
  type Unit = u: nat | u < 0x10000

  type JsString = seq<Unit>

  function Ascii(s: string): (t: JsString)
    requires forall i | 0 <= i < |s| :: s[i] as int < 128
    ensures |t| == |s| && forall i | 0 <= i < |s| :: t[i] == s[i] as int
  {
    seq(|s|, i requires 0 <= i < |s| => s[i] as int)
  }
}
