/**
 * The seed of `generate_svg` (src/app.rs): `year * month * day + part`,
 * where the month is JavaScript's `Date.getMonth`, counted from 0.
 */
module Seed {

  /** The largest year a JavaScript `Date` can hold. */
  const MaxJsYear: nat := 275760

  function Seed(year: nat, month0: nat, day: nat, part: nat): nat
  {
    year * month0 * day + part
  }

  /** For every date a JavaScript `Date` holds, the `u32` product cannot wrap around. */
  lemma SeedFitsU32(year: nat, month0: nat, day: nat, part: nat)
    requires year <= MaxJsYear && month0 <= 11 && 1 <= day <= 31 && part <= 2
    ensures Seed(year, month0, day, part) < 0x1_0000_0000
  {
    assert year * month0 <= MaxJsYear * 11 by {
      assert year * month0 <= year * 11;
      assert year * 11 <= MaxJsYear * 11;
    }
    assert year * month0 * day <= MaxJsYear * 11 * 31 by {
      assert year * month0 * day <= year * month0 * 31;
    }
  }

  /** On one date, the three parts get three different seeds: one more part, one more seed. */
  lemma SeedByPart(year: nat, month0: nat, day: nat, part: nat, other: nat)
    ensures Seed(year, month0, day, part) == Seed(year, month0, day, other) <==> part == other
    ensures Seed(year, month0, day, part + 1) == Seed(year, month0, day, part) + 1
  {
  }

  /** In January the month is 0, so every day of every year gets the seed `part`. */
  lemma JanuarySeed(year: nat, day: nat, part: nat)
    ensures Seed(year, 0, day, part) == part
  {
  }
}
