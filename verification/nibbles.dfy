/**
  * The four 4-bit nibbles of a ushort, numbered 0 to 3 from the most significant. The
  * definitions select on a two-bit position; the `nat` forms below are what the checker uses.
  */
module Nibbles {
  /** Nibble q of a ushort. */
  function NibbleAt(x: bv16, q: bv2): bv8 {
    if q == 0 then ((x & 0xF000) >> 12) as bv8
    else if q == 1 then ((x & 0x0F00) >> 8) as bv8
    else if q == 2 then ((x & 0x00F0) >> 4) as bv8
    else (x & 0x000F) as bv8
  }

  /** The low nibble of v, placed at nibble q of a ushort. */
  function LaneAt(v: bv8, q: bv2): bv16 {
    var low := (v & 0x0F) as bv16;
    if q == 0 then low << 12 else if q == 1 then low << 8 else if q == 2 then low << 4 else low
  }

  /** Nibble position p of a ushort. */
  function Nibble(x: bv16, p: nat): bv8
    requires p < 4
  {
    NibbleAt(x, p as bv2)
  }

  /** Entry value v as it sits in nibble position p. */
  function Lane(v: bv8, p: nat): bv16
    requires p < 4
  {
    LaneAt(v, p as bv2)
  }

  /**
    * How FuncFormatChecker's loop reads a nibble at `shift`: it masks with `0xF000 >> shift`,
    * shifts down by `12 - shift` and keeps the low byte.
    */
  function LoopRead(x: bv16, shift: bv16): bv8
    requires shift <= 12
  {
    (((x & (0xF000 >> shift)) >> (12 - shift)) & 0xFF) as bv8
  }

  /** The loop's pass with `shift = 4p` reads nibble p. */
  lemma NibbleIsLoopRead(x: bv16, p: nat)
    requires p < 4
    ensures Nibble(x, p) == LoopRead(x, (4 * p) as bv16)
  {
    LoopReadAt(x, p as bv2);
  }

  lemma LoopReadAt(x: bv16, q: bv2)
    ensures NibbleAt(x, q) == LoopRead(x, 4 * (q as bv16))
  {
  }

  lemma NibbleAnd(a: bv16, b: bv16, p: nat)
    requires p < 4
    ensures Nibble(a & b, p) == Nibble(a, p) & Nibble(b, p)
  {
    AndAt(a, b, p as bv2);
  }

  lemma AndAt(a: bv16, b: bv16, q: bv2)
    ensures NibbleAt(a & b, q) == NibbleAt(a, q) & NibbleAt(b, q)
  {
  }

  /** Two ushorts are equal iff their four nibbles are. */
  lemma NibblesDetermine(a: bv16, b: bv16)
    ensures a == b <==> (Nibble(a, 0) == Nibble(b, 0) && Nibble(a, 1) == Nibble(b, 1)
                         && Nibble(a, 2) == Nibble(b, 2) && Nibble(a, 3) == Nibble(b, 3))
  {
  }

  /** XORing a lane into a word whose nibble k is empty sets that nibble and keeps the rest. */
  lemma XorLane(a: bv16, v: bv8, k: nat, p: nat)
    requires v < 16 && k < 4 && p < 4
    requires Nibble(a, k) == 0
    ensures Nibble(a ^ Lane(v, k), p) == if p == k then v else Nibble(a, p)
  {
    XorLaneAt(a, v, k as bv2, p as bv2);
  }

  lemma XorLaneAt(a: bv16, v: bv8, j: bv2, q: bv2)
    requires v < 16 && NibbleAt(a, j) == 0
    ensures NibbleAt(a ^ LaneAt(v, j), q) == if q == j then v else NibbleAt(a, q)
  {
  }

  /** The same for OR. */
  lemma OrLane(a: bv16, v: bv8, k: nat, p: nat)
    requires v < 16 && k < 4 && p < 4
    requires Nibble(a, k) == 0
    ensures Nibble(a | Lane(v, k), p) == if p == k then v else Nibble(a, p)
  {
    OrLaneAt(a, v, k as bv2, p as bv2);
  }

  lemma OrLaneAt(a: bv16, v: bv8, j: bv2, q: bv2)
    requires v < 16 && NibbleAt(a, j) == 0
    ensures NibbleAt(a | LaneAt(v, j), q) == if q == j then v else NibbleAt(a, q)
  {
  }
}
