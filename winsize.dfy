/**
 * The record `setWinsize` hands to the TIOCSWINSZ ioctl (main.go lines
 * 68-71): `struct{ h, w, x, y uint16 }{uint16(h), uint16(w), 0, 0}`. The
 * system call itself is not modelled.
 */
module Winsize {

  const Uint16Limit: nat := 0x1_0000

  /** The record, fields in memory order: rows, columns, then two zero pixel sizes. */
  datatype Winsize = Winsize(h: nat, w: nat, x: nat, y: nat)

  /** Go's `uint16(n)` for an `int`: reduction modulo 2^16 (two's complement wrap). */
  function Uint16(n: int): (r: nat)
    ensures r < Uint16Limit
    ensures (r - n) % Uint16Limit == 0
  {
    n % Uint16Limit
  }

  /** `setWinsize(f, w, h)`'s record: the height goes first, truncated like the width. */
  function WinsizeRecord(w: int, h: int): (ws: Winsize)
    ensures ws.h < Uint16Limit && ws.w < Uint16Limit
  {
    Winsize(Uint16(h), Uint16(w), 0, 0)
  }

  /** The record as the four `uint16` slots the ioctl reads, in order. */
  function Slots(ws: Winsize): seq<nat>
  {
    [ws.h, ws.w, ws.x, ws.y]
  }

  /** Dimensions that fit in 16 bits arrive unchanged, rows first; the pixel sizes are zero. */
  lemma RecordInRange(w: int, h: int)
    requires 0 <= w < Uint16Limit && 0 <= h < Uint16Limit
    ensures Slots(WinsizeRecord(w, h)) == [h, w, 0, 0]
  {
  }

  /** Two requests give the same record exactly when their dimensions agree modulo 2^16. */
  lemma RecordEqualIffCongruent(w1: int, h1: int, w2: int, h2: int)
    ensures WinsizeRecord(w1, h1) == WinsizeRecord(w2, h2) <==>
      (w1 - w2) % Uint16Limit == 0 && (h1 - h2) % Uint16Limit == 0
  {
    CongruentIffSameResidue(w1, w2);
    CongruentIffSameResidue(h1, h2);
  }

  lemma CongruentIffSameResidue(a: int, b: int)
    ensures Uint16(a) == Uint16(b) <==> (a - b) % Uint16Limit == 0
  {
    var qa, qb := a / Uint16Limit, b / Uint16Limit;
    assert a == qa * Uint16Limit + Uint16(a);
    assert b == qb * Uint16Limit + Uint16(b);
    assert a - b == (qa - qb) * Uint16Limit + (Uint16(a) - Uint16(b));
    if (a - b) % Uint16Limit == 0 {
      var k := (a - b) / Uint16Limit;
      assert Uint16(a) - Uint16(b) == (k - (qa - qb)) * Uint16Limit;
    }
  }
}
