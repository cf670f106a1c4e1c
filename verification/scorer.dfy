/**
 * The scoring done inside `check_input` (src/app.rs): the error between the
 * guessed and the true angle, the similarity percentage, the category label
 * and the points, together with the two-decimal value the page displays.
 *
 * The source computes in `f64`; since the error is an integer, every quantity
 * here is an exact rational and is modelled with `real`.
 */
module Scorer {

  datatype Category = Perfect | Good | Almost | Error | Failure

  /** `usize::abs_diff`: the plain distance between two angles, not the circular one. */
  function AbsDiff(a: nat, b: nat): (d: nat)
    ensures a == b + d || b == a + d
  {
    if a >= b then a - b else b - a
  }

  /** `(360 - error) / 360 * 100`: 100 for an exact guess, negative once the error exceeds 360. */
  function Percentage(error: nat): real
  {
    (360.0 - error as real) / 360.0 * 100.0
  }

  /** The ordered first-match list of `check_input`; boundaries shared by two arms go to the earlier one. */
  function CategoryOf(percentage: real): Category
  {
    if percentage == 100.0 then Perfect
    else if percentage <= 33.33 then Failure
    else if 33.33 <= percentage <= 66.66 then Error
    else if 66.66 <= percentage <= 90.0 then Almost
    else if 95.0 <= percentage then Good
    else Failure
  }

  function Points(percentage: real): real
  {
    percentage / 3.0
  }

  /**
   * The points as `{points:.2}` shows them, in hundredths: the integer nearest
   * to (360 - error) * 250 / 27. That quotient has a fractional part k/27, so
   * it never lies half-way between two integers.
   */
  function Shown(error: nat): int
  {
    ((360 - error) * 500 + 27) / 54
  }

  datatype ScoreEntry = ScoreEntry(error: nat, percentage: real, category: Category, points: real, shown: int)

  function Score(guess: nat, truth: nat): ScoreEntry
  {
    var error := AbsDiff(guess, truth);
    var percentage := Percentage(error);
    ScoreEntry(error, percentage, CategoryOf(percentage), Points(percentage), Shown(error))
  }

  /** The categories by integer error, as an independent list of error bands. */
  function ErrorBand(error: nat): Category
  {
    if error == 0 then Perfect
    else if error <= 18 then Good
    else if error <= 35 then Failure
    else if error <= 120 then Almost
    else if error <= 240 then Error
    else Failure
  }

  lemma CategoryByError(error: nat)
    ensures CategoryOf(Percentage(error)) == ErrorBand(error)
  {
    var p := Percentage(error);
    assert p == (360.0 - error as real) * 5.0 / 18.0;
    if error == 0 {
    } else if error <= 18 {
      assert p >= 95.0;
    } else if error <= 35 {
      assert 90.0 < p < 95.0;
    } else if error <= 120 {
      assert 66.66 < p <= 90.0;
    } else if error <= 240 {
      assert 33.33 < p <= 66.66;
    } else {
      assert p <= 33.33;
    }
  }

  /** The score depends on the two angles only through their distance. */
  lemma ScoreSymmetric(guess: nat, truth: nat)
    ensures Score(guess, truth) == Score(truth, guess)
    ensures Score(guess, truth).category == ErrorBand(AbsDiff(guess, truth))
  {
    CategoryByError(AbsDiff(guess, truth));
  }

  /** An exact guess scores 100 percent and the most points; nothing scores more. */
  lemma PointsRange(guess: nat, truth: nat)
    ensures Score(guess, truth).points <= 100.0 / 3.0
    ensures Score(guess, truth).points == 100.0 / 3.0 <==> guess == truth
    ensures Score(guess, truth).category == Perfect <==> guess == truth
    ensures guess <= 360 && truth <= 360 ==> 0.0 <= Score(guess, truth).points
  {
    CategoryByError(AbsDiff(guess, truth));
  }

  /**
   * A guess more than 360 above the truth is not rejected (the page's `max`
   * attribute is not enforced by the parse): its points are negative, it is
   * classed as a failure and its displayed value is negative.
   */
  lemma OversizedGuess(guess: nat, truth: nat)
    requires guess > truth + 360
    ensures Score(guess, truth).points < 0.0
    ensures Score(guess, truth).category == Failure
    ensures Score(guess, truth).shown < 0
  {
    CategoryByError(AbsDiff(guess, truth));
  }

  /** The displayed hundredths are the unique integer within one half of the exact points times 100. */
  lemma ShownIsNearest(error: nat, k: int)
    ensures -0.5 < Shown(error) as real - Points(Percentage(error)) * 100.0 < 0.5
    ensures -0.5 < k as real - Points(Percentage(error)) * 100.0 < 0.5 ==> k == Shown(error)
  {
    var x := Points(Percentage(error)) * 100.0;
    var n := (360 - error) * 500 + 27;
    var q, r := n / 54, n % 54;
    assert n == 54 * q + r && 0 <= r < 54;
    // n is odd, so r is never 0 and the rounding never meets a tie
    assert r != 0 by {
      assert n % 2 == 1;
    }
    assert x == (n - 27) as real / 54.0;
    assert Shown(error) == q;
    assert q as real - x == (27 - r) as real / 54.0;
  }

  /** A displayed value is non-negative exactly when the error is at most 360, and never above 33.33. */
  lemma ShownRange(error: nat)
    ensures 0 <= Shown(error) <==> error <= 360
    ensures Shown(error) <= 3333
    ensures Shown(error) == 3333 <==> error == 0
  {
  }
}
