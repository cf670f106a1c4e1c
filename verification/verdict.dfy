/**
 * `generate_title_for_score` (src/app.rs): the title of the end-of-game popup,
 * chosen from the final total by an ordered match.
 */
module Verdict {

  /** The titles the match can return: the one for exactly 100, the ten bands [0,10] … [90,100], and the fallback. */
  datatype Title = Cheating | Band(k: nat) | Fallback

  /** The text of each title. */
  function TitleText(t: Title): string
  {
    match t
    case Cheating => "Wow, cheating in a game like that? Really?"
    case Band(k) =>
      if k == 0 then "Do you have a humiliation kink?"
      else if k == 1 then "You don't have anything better to do?"
      else if k == 2 then "Nice, your score matches your IQ"
      else if k == 3 then "If you are looking for information on the Germanic invaders, you're not on the right website"
      else if k == 4 then "Just forget this website I don't want to see your face tomorrow"
      else if k == 5 then "My dog plays better than you"
      else if k == 6 then "Did you understand the purpose of this game?"
      else if k == 7 then "At this point, picking random numbers may yield better results"
      else if k == 8 then "You're supposed to think before typing"
      else "Not bad for a blind person"
    case Fallback => "I lost your score but it was probably bad anyway"
  }

  /** Exactly 100 first, then the closed bands in ascending order, then the fallback. */
  function TitleFor(score: real): Title
  {
    if score == 100.0 then Cheating
    else if 0.0 <= score <= 10.0 then Band(0)
    else if 10.0 <= score <= 20.0 then Band(1)
    else if 20.0 <= score <= 30.0 then Band(2)
    else if 30.0 <= score <= 40.0 then Band(3)
    else if 40.0 <= score <= 50.0 then Band(4)
    else if 50.0 <= score <= 60.0 then Band(5)
    else if 60.0 <= score <= 70.0 then Band(6)
    else if 70.0 <= score <= 80.0 then Band(7)
    else if 80.0 <= score <= 90.0 then Band(8)
    else if 90.0 <= score <= 100.0 then Band(9)
    else Fallback
  }

  /**
   * A score in band k, which is (10k, 10(k+1)] and for k = 0 also takes 0,
   * gets that band's title unless it is exactly 100: a shared boundary such
   * as 10 or 90 goes to the lower band.
   */
  lemma TitleInBand(score: real, k: nat)
    requires k < 10
    requires (if k == 0 then 0.0 <= score else (10 * k) as real < score) && score <= (10 * k + 10) as real
    requires score != 100.0
    ensures TitleFor(score) == Band(k)
  {
  }

  /** Exactly 100 is the cheating title; below 0 or above 100 is the fallback; every other score gets one of the ten bands. */
  lemma TitleSpecialCases(score: real)
    ensures TitleFor(score) == Cheating <==> score == 100.0
    ensures TitleFor(score) == Fallback <==> score < 0.0 || score > 100.0
    ensures TitleFor(score).Band? ==> TitleFor(score).k < 10
  {
  }
}
