/**
 * Tables of codes shown one after another: the level frames they become on
 * the wire and the bytes a chip shows once they are latched.
 */
module CodeTables {
  import opened Pins
  import opened ShiftRegister
  import opened Hc595

  /** The level sequence of each code, in order. */
  function Glyphs(codes: seq<bv8>): (r: seq<seq<Level>>)
    ensures |r| == |codes|
    ensures forall k :: 0 <= k < |r| ==> r[k] == BitLevels(codes[k])
  {
    if |codes| == 0 then [] else [BitLevels(codes[0])] + Glyphs(codes[1..])
  }

  lemma GlyphsSnoc(codes: seq<bv8>, code: bv8)
    ensures Glyphs(codes + [code]) == Glyphs(codes) + [BitLevels(code)]
  {
  }

  /** A single chip whose consecutive latches hold the levels of `codes`
      shows, at the k-th of those latches, the k-th code. */
  lemma ShowsByteAt(c: Chip, from: nat, codes: seq<bv8>, k: nat)
    requires ShowsAll(c.latches, from, Glyphs(codes))
    requires k < |codes|
    ensures from + k < |c.latches| && |c.latches[from + k]| >= 8
    ensures LatchedByte(c, from + k) == codes[k] as int
  {
    var g := Glyphs(codes);
    assert g[k] == BitLevels(codes[k]);
    RoundTrip(codes[k]);
  }
}
