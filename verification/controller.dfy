/**
 * The three-round controller: `app` renders three number inputs and three
 * answer cells, `check_input` handles a key pressed in an input, and
 * `finish_game` fills and shows the end-of-game popup (src/app.rs).
 *
 * The page is host state. `Page` is its value; `KeyDown`, `Finish` and `Type`
 * say what one event does to it; `Inv` is what every reachable page
 * satisfies. The class `Document` holds the same state in arrays and its
 * methods are proved against those functions.
 */
module Controller {
  import opened Opt
  import opened Scorer
  import opened Decimal
  import opened Verdict

  /** The round an input or answer cell belongs to: `guess1`/`answer1` is slot 0. */
  type Slot = k: nat | k < 3

  /** A number input: its `hidden` and `readonly` flags and its current text. */
  datatype Input = Input(hidden: bool, readOnly: bool, value: string)

  /**
   * The contents of an answer cell: empty, or the true angle with the score
   * span's class and the points it displays, in hundredths; the span's text
   * is `ScoreText(shown)`.
   */
  datatype Cell = Blank | Scored(truth: nat, category: Category, shown: int)

  datatype Answer = Answer(hidden: bool, cell: Cell)

  /** What the popup shows: the title (its text is `TitleText(title)`), the total and the three summed values. */
  datatype Popup = Popup(title: Title, total: real, parts: seq<real>)

  /** The page: `popup` is `None` while the overlay and popup are not displayed. */
  datatype Page = Page(inputs: seq<Input>, answers: seq<Answer>, focus: Option<Slot>, popup: Option<Popup>)

  /** How a key event ends: ignored, thrown at the guess parse, answered, or at the end of the game. */
  datatype Outcome = NotEnter | BadGuess | Revealed | Finished | Aborted

  predicate Shaped(p: Page)
  {
    |p.inputs| == 3 && |p.answers| == 3
  }

  /** The page as `app` renders it: only `guess1` shown, every answer hidden and empty. */
  function Initial(): Page
  {
    Page([Input(false, false, ""), Input(true, false, ""), Input(true, false, "")],
         [Answer(true, Blank), Answer(true, Blank), Answer(true, Blank)],
         None, None)
  }

  /** The text of the score span inside a cell: `+` then the points with two decimals. */
  function ScoreText(shown: int): string
  {
    "+" + FormatFixed2(shown)
  }

  /** The cell `check_input` writes for a guess: the true angle, the category and the displayed points. */
  function CellFor(guess: nat, truth: nat): Cell
  {
    var s := Score(guess, truth);
    Scored(truth, s.category, s.shown)
  }

  /** The displayed hundredths of the guess held by input k. */
  function ShownAt(p: Page, truths: seq<nat>, k: Slot): int
    requires Shaped(p) && |truths| == 3 && ParseUsize(p.inputs[k].value).Some?
  {
    Shown(AbsDiff(ParseUsize(p.inputs[k].value).value, truths[k]))
  }

  /**
   * `finish_game`: read the three score spans back as numbers, then write the
   * title, the total and its composition and display the popup. A missing
   * span or a text that does not parse aborts before anything is written.
   */
  function Finish(p: Page): (r: (Page, bool))
    requires Shaped(p)
    ensures r.1 ==> r.0 == p.(popup := r.0.popup) && r.0.popup.Some?
    ensures !r.1 ==> r.0 == p
  {
    var c1, c2, c3 := p.answers[0].cell, p.answers[1].cell, p.answers[2].cell;
    if c1.Blank? || c2.Blank? || c3.Blank? then (p, false)
    else
      var s1, s2, s3 := ParseFloat(ScoreText(c1.shown)), ParseFloat(ScoreText(c2.shown)), ParseFloat(ScoreText(c3.shown));
      if s1.None? || s2.None? || s3.None? then (p, false)
      else
        var total := s1.value + s2.value + s3.value;
        (p.(popup := Some(Popup(TitleFor(total), total, [s1.value, s2.value, s3.value]))), true)
  }

  /**
   * `check_input` for a key pressed in input `slot`. On Enter: lock the
   * input, parse its text, write and reveal the answer, then show and focus
   * the next input, or finish the game after the third.
   */
  function KeyDown(p: Page, truths: seq<nat>, slot: Slot, key: string): (r: (Page, Outcome))
    requires Shaped(p) && |truths| == 3
    ensures Shaped(r.0)
    ensures r.1 == NotEnter <==> key != "Enter"
    ensures r.1 == NotEnter ==> r.0 == p
    ensures key == "Enter" ==> r.0.inputs[slot] == p.inputs[slot].(readOnly := true)
    ensures r.1 == BadGuess <==> key == "Enter" && ParseUsize(p.inputs[slot].value).None?
    ensures r.1 == BadGuess ==> r.0 == p.(inputs := p.inputs[slot := p.inputs[slot].(readOnly := true)])
    ensures forall k :: 0 <= k < 3 ==> r.0.inputs[k].value == p.inputs[k].value
    ensures r.1 in {Revealed, Finished, Aborted} ==>
      r.0.answers[slot] == Answer(false, CellFor(ParseUsize(p.inputs[slot].value).value, truths[slot]))
    ensures r.1 == Revealed <==> key == "Enter" && ParseUsize(p.inputs[slot].value).Some? && slot < 2
    ensures r.1 == Revealed ==>
      var answered := Answered(p, truths, slot, ParseUsize(p.inputs[slot].value).value);
      r.0 == answered.(inputs := answered.inputs[slot + 1 := p.inputs[slot + 1].(hidden := false)], focus := Some(slot + 1))
    ensures r.1 in {Finished, Aborted} ==>
      slot == 2 && (r.0, r.1 == Finished) == Finish(Answered(p, truths, slot, ParseUsize(p.inputs[slot].value).value))
  {
    if key != "Enter" then (p, NotEnter)
    else
      var locked := p.(inputs := p.inputs[slot := p.inputs[slot].(readOnly := true)]);
      match ParseUsize(p.inputs[slot].value)
      case None => (locked, BadGuess)
      case Some(guess) =>
        var answered := Answered(p, truths, slot, guess);
        if slot < 2 then
          var next := slot + 1;
          (answered.(inputs := answered.inputs[next := answered.inputs[next].(hidden := false)], focus := Some(next)), Revealed)
        else
          var (q, ok) := Finish(answered);
          (q, if ok then Finished else Aborted)
  }

  /**
   * The page once Enter has locked input `slot` and its guess has been
   * scored: the answer cell holds the score and is shown; nothing else has changed.
   */
  function Answered(p: Page, truths: seq<nat>, slot: Slot, guess: nat): (r: Page)
    requires Shaped(p) && |truths| == 3
    ensures Shaped(r)
  {
    p.(inputs := p.inputs[slot := p.inputs[slot].(readOnly := true)],
       answers := p.answers[slot := Answer(false, CellFor(guess, truths[slot]))])
  }

  /** The browser's editing of an input: only a shown, writable input takes new text. */
  function Type(p: Page, slot: Slot, text: string): (r: Page)
    requires Shaped(p)
    ensures Shaped(r)
    ensures p.inputs[slot].hidden || p.inputs[slot].readOnly ==> r == p
  {
    if p.inputs[slot].hidden || p.inputs[slot].readOnly then p
    else p.(inputs := p.inputs[slot := p.inputs[slot].(value := text)])
  }

  /** Every cell holds a score and every input a guess. */
  predicate AllScored(p: Page)
    requires Shaped(p)
  {
    p.answers[0].cell.Scored? && p.answers[1].cell.Scored? && p.answers[2].cell.Scored? &&
    ParseUsize(p.inputs[0].value).Some? && ParseUsize(p.inputs[1].value).Some? && ParseUsize(p.inputs[2].value).Some?
  }

  /** No guess exceeds its true angle by more than 360, so every displayed value is non-negative. */
  predicate NoneOvershot(p: Page, truths: seq<nat>)
    requires Shaped(p) && |truths| == 3 && AllScored(p)
  {
    ParseUsize(p.inputs[0].value).value <= truths[0] + 360 &&
    ParseUsize(p.inputs[1].value).value <= truths[1] + 360 &&
    ParseUsize(p.inputs[2].value).value <= truths[2] + 360
  }

  /** The popup for three displayed values, given in hundredths: the values, their sum and the title of that sum. */
  function PopupOf(h0: int, h1: int, h2: int): Popup
  {
    var v0, v1, v2 := h0 as real / 100.0, h1 as real / 100.0, h2 as real / 100.0;
    Popup(TitleFor(v0 + v1 + v2), v0 + v1 + v2, [v0, v1, v2])
  }

  /** The popup for the three guesses on the page. */
  function Composed(p: Page, truths: seq<nat>): Popup
    requires Shaped(p) && |truths| == 3 && AllScored(p)
  {
    PopupOf(ShownAt(p, truths, 0), ShownAt(p, truths, 1), ShownAt(p, truths, 2))
  }

  /** What holds of one slot on every reachable page. */
  ghost predicate SlotInv(p: Page, truths: seq<nat>, k: Slot)
    requires Shaped(p) && |truths| == 3
  {
    // an answer is shown exactly when it has been written
    (p.answers[k].hidden <==> p.answers[k].cell.Blank?) &&
    // a written answer belongs to a shown, locked input and to the guess it holds
    (p.answers[k].cell.Scored? ==>
      !p.inputs[k].hidden && p.inputs[k].readOnly && ParseUsize(p.inputs[k].value).Some? &&
      p.answers[k].cell == CellFor(ParseUsize(p.inputs[k].value).value, truths[k])) &&
    // an input after the first is shown exactly when the answer before it is written
    (k > 0 ==> (p.inputs[k].hidden <==> p.answers[k - 1].cell.Blank?))
  }

  ghost predicate Inv(p: Page, truths: seq<nat>)
  {
    Shaped(p) && |truths| == 3 &&
    truths[0] < 360 && truths[1] < 360 && truths[2] < 360 &&
    !p.inputs[0].hidden &&
    SlotInv(p, truths, 0) && SlotInv(p, truths, 1) && SlotInv(p, truths, 2) &&
    (p.focus.Some? ==> !p.inputs[p.focus.value].hidden) &&
    // the popup, once shown, is the one composed from the three guesses, none of which overshot
    (p.popup.Some? ==> AllScored(p) && NoneOvershot(p, truths) && p.popup == Some(Composed(p, truths))) &&
    // and it is shown as soon as three guesses are scored and none overshot
    (AllScored(p) && NoneOvershot(p, truths) ==> p.popup.Some?)
  }

  lemma InitialInv(truths: seq<nat>)
    requires |truths| == 3 && truths[0] < 360 && truths[1] < 360 && truths[2] < 360
    ensures Inv(Initial(), truths)
  {
  }

  /**
   * The text a cell receives reads back as the displayed value exactly when
   * the guess is at most 360 above the truth; that value is at most 33.33.
   */
  lemma CellReadsBack(guess: nat, truth: nat)
    requires truth < 360
    ensures var shown := Shown(AbsDiff(guess, truth));
      (shown >= 0 <==> guess <= truth + 360) && shown <= 3333 &&
      ParseFloat(ScoreText(shown)) == if shown >= 0 then Some(shown as real / 100.0) else None
  {
    ScoreTextValue(Shown(AbsDiff(guess, truth)));
    ShownRange(AbsDiff(guess, truth));
  }

  /**
   * `finish_game` on three written cells: it shows the popup composed from
   * the three guesses exactly when none exceeds its true angle by more than
   * 360; otherwise a score text reads `+-…`, its parse fails and nothing changes.
   */
  lemma FinishOnScoredCells(p: Page, truths: seq<nat>)
    requires Shaped(p) && |truths| == 3 && truths[0] < 360 && truths[1] < 360 && truths[2] < 360
    requires AllScored(p)
    requires forall k :: 0 <= k < 3 ==> p.answers[k].cell.shown == ShownAt(p, truths, k)
    ensures Finish(p).1 <==> NoneOvershot(p, truths)
    ensures Finish(p).0 == if Finish(p).1 then p.(popup := Some(Composed(p, truths))) else p
  {
    forall k | 0 <= k < 3
      ensures ShownAt(p, truths, k) >= 0 <==> ParseUsize(p.inputs[k].value).value <= truths[k] + 360
    {
      ShownRange(AbsDiff(ParseUsize(p.inputs[k].value).value, truths[k]));
    }
    FinishReadsShown(p, ShownAt(p, truths, 0), ShownAt(p, truths, 1), ShownAt(p, truths, 2));
  }

  /** `finish_game` reads each cell's displayed value back, and fails on the first negative one. */
  lemma FinishReadsShown(p: Page, h0: int, h1: int, h2: int)
    requires Shaped(p)
    requires p.answers[0].cell.Scored? && p.answers[0].cell.shown == h0
    requires p.answers[1].cell.Scored? && p.answers[1].cell.shown == h1
    requires p.answers[2].cell.Scored? && p.answers[2].cell.shown == h2
    ensures Finish(p) == if h0 >= 0 && h1 >= 0 && h2 >= 0 then (p.(popup := Some(PopupOf(h0, h1, h2))), true) else (p, false)
  {
    ScoreTextValue(h0);
    ScoreTextValue(h1);
    ScoreTextValue(h2);
  }

  /** Every event the host can deliver, a key in a shown input, keeps the invariant. */
  lemma KeyDownInv(p: Page, truths: seq<nat>, slot: Slot, key: string)
    requires Inv(p, truths) && !p.inputs[slot].hidden
    ensures Inv(KeyDown(p, truths, slot, key).0, truths)
  {
    if key == "Enter" {
      if ParseUsize(p.inputs[slot].value).None? {
        BadGuessInv(p, truths, slot);
      } else if slot < 2 {
        RevealInv(p, truths, slot);
      } else {
        ThirdEnterInv(p, truths);
      }
    }
  }

  lemma BadGuessInv(p: Page, truths: seq<nat>, slot: Slot)
    requires Inv(p, truths) && ParseUsize(p.inputs[slot].value).None?
    ensures Inv(KeyDown(p, truths, slot, "Enter").0, truths)
  {
    assert SlotInv(p, truths, 0) && SlotInv(p, truths, 1) && SlotInv(p, truths, 2);
  }

  lemma RevealInv(p: Page, truths: seq<nat>, slot: Slot)
    requires Inv(p, truths) && !p.inputs[slot].hidden && slot < 2 && ParseUsize(p.inputs[slot].value).Some?
    ensures Inv(KeyDown(p, truths, slot, "Enter").0, truths)
  {
    var q := KeyDown(p, truths, slot, "Enter").0;
    assert SlotInv(p, truths, 0) && SlotInv(p, truths, 1) && SlotInv(p, truths, 2);
    var guess := ParseUsize(p.inputs[slot].value).value;
    assert q.popup == p.popup;
    assert p.popup.Some? ==> p.answers[slot].cell == CellFor(guess, truths[slot]);
    assert p.popup.Some? ==> q.answers == p.answers;
  }

  lemma ThirdEnterInv(p: Page, truths: seq<nat>)
    requires Inv(p, truths) && !p.inputs[2].hidden && ParseUsize(p.inputs[2].value).Some?
    ensures Inv(KeyDown(p, truths, 2, "Enter").0, truths)
  {
    var (q, o) := KeyDown(p, truths, 2, "Enter");
    ThirdEnter(p, truths);
    assert SlotInv(p, truths, 0) && SlotInv(p, truths, 1) && SlotInv(p, truths, 2);
  }

  /** Editing an input keeps the invariant: a locked input's text, which its answer depends on, cannot change. */
  lemma TypeInv(p: Page, truths: seq<nat>, slot: Slot, text: string)
    requires Inv(p, truths)
    ensures Inv(Type(p, slot, text), truths)
  {
    assert SlotInv(p, truths, 0) && SlotInv(p, truths, 1) && SlotInv(p, truths, 2);
  }

  /**
   * The rounds are played in order: the shown inputs form a prefix, answer k
   * is written only after answers 1..k-1, and an input whose previous answer
   * is missing is hidden, so the host cannot deliver a key to it.
   */
  lemma RoundsInOrder(p: Page, truths: seq<nat>, k: Slot)
    requires Inv(p, truths)
    ensures k > 0 && p.inputs[k].hidden ==> forall j :: k <= j < 3 ==> p.inputs[j].hidden
    ensures p.answers[k].cell.Scored? ==> forall j :: 0 <= j <= k ==> p.answers[j].cell.Scored? && !p.answers[j].hidden
    ensures p.popup.Some? ==> forall j :: 0 <= j < 3 ==> p.answers[j].cell.Scored? && !p.answers[j].hidden
  {
    assert SlotInv(p, truths, 0) && SlotInv(p, truths, 1) && SlotInv(p, truths, 2);
  }

  /**
   * Pressing Enter again re-runs `check_input` with the same locked text: the
   * page and the outcome are those of the first press.
   */
  lemma RepeatedEnter(p: Page, truths: seq<nat>, slot: Slot)
    requires Shaped(p) && |truths| == 3
    ensures KeyDown(KeyDown(p, truths, slot, "Enter").0, truths, slot, "Enter") == KeyDown(p, truths, slot, "Enter")
  {
    var (q, o) := KeyDown(p, truths, slot, "Enter");
    assert q.inputs[slot].value == p.inputs[slot].value;
    assert q.inputs[slot := q.inputs[slot].(readOnly := true)] == q.inputs;
    if o != BadGuess {
      var cell := Answer(false, CellFor(ParseUsize(p.inputs[slot].value).value, truths[slot]));
      assert q.answers[slot := cell] == q.answers;
      if slot == 2 {
        RepeatedThirdEnter(p, truths);
      } else {
        assert q.inputs[slot + 1 := q.inputs[slot + 1].(hidden := false)] == q.inputs;
      }
    }
  }

  lemma RepeatedThirdEnter(p: Page, truths: seq<nat>)
    requires Shaped(p) && |truths| == 3 && ParseUsize(p.inputs[2].value).Some?
    ensures KeyDown(KeyDown(p, truths, 2, "Enter").0, truths, 2, "Enter") == KeyDown(p, truths, 2, "Enter")
  {
    var cell := Answer(false, CellFor(ParseUsize(p.inputs[2].value).value, truths[2]));
    var answered := p.(inputs := p.inputs[2 := p.inputs[2].(readOnly := true)], answers := p.answers[2 := cell]);
    var q := Finish(answered).0;
    assert KeyDown(p, truths, 2, "Enter") == (q, if Finish(answered).1 then Finished else Aborted);
    assert q.inputs[2 := q.inputs[2].(readOnly := true)] == q.inputs;
    assert q.answers[2 := cell] == q.answers;
    FinishTwice(answered);
  }

  /**
   * Enter pressed again, at any later time, on an input whose answer is
   * written: the locked text gives the same guess, so the same cell is
   * written again, and the next input, already shown, only receives the focus.
   * On the third input the popup is composed again from the same values.
   */
  lemma ReEnterAnswered(p: Page, truths: seq<nat>, slot: Slot)
    requires Inv(p, truths) && p.answers[slot].cell.Scored?
    ensures KeyDown(p, truths, slot, "Enter") ==
      if slot < 2 then (p.(focus := Some(slot + 1)), Revealed)
      else (p, if p.popup.Some? then Finished else Aborted)
  {
    if slot < 2 {
      ReEnterRound(p, truths, slot);
    } else {
      ReEnterThird(p, truths);
    }
  }

  lemma ReEnterRound(p: Page, truths: seq<nat>, slot: Slot)
    requires Inv(p, truths) && p.answers[slot].cell.Scored? && slot < 2
    ensures KeyDown(p, truths, slot, "Enter") == (p.(focus := Some(slot + 1)), Revealed)
  {
    assert SlotInv(p, truths, 0) && SlotInv(p, truths, 1) && SlotInv(p, truths, 2);
    var guess := ParseUsize(p.inputs[slot].value).value;
    assert Answered(p, truths, slot, guess) == p;
    assert p.inputs[slot + 1 := p.inputs[slot + 1].(hidden := false)] == p.inputs;
  }

  lemma ReEnterThird(p: Page, truths: seq<nat>)
    requires Inv(p, truths) && p.answers[2].cell.Scored?
    ensures KeyDown(p, truths, 2, "Enter") == (p, if p.popup.Some? then Finished else Aborted)
  {
    assert SlotInv(p, truths, 0) && SlotInv(p, truths, 1) && SlotInv(p, truths, 2);
    var guess := ParseUsize(p.inputs[2].value).value;
    assert Answered(p, truths, 2, guess) == p;
    assert AllScored(p);
    FinishOnScoredCells(p, truths);
  }

  /** `finish_game` run a second time reads the same cells and shows the same popup. */
  lemma FinishTwice(p: Page)
    requires Shaped(p)
    ensures Finish(Finish(p).0) == Finish(p)
  {
    var c0, c1, c2 := p.answers[0].cell, p.answers[1].cell, p.answers[2].cell;
    if c0.Scored? && c1.Scored? && c2.Scored? {
      FinishReadsShown(p, c0.shown, c1.shown, c2.shown);
      FinishReadsShown(Finish(p).0, c0.shown, c1.shown, c2.shown);
    }
  }

  /**
   * A text that is not a `usize` (empty, negative, fractional) still locks the
   * input, since the lock comes before the parse: no answer is written, the
   * next input stays as it was, and the round can never be completed, since
   * no edit reaches the text and every further Enter fails the same way.
   */
  lemma MalformedGuessLocks(p: Page, truths: seq<nat>, slot: Slot, text: string)
    requires Shaped(p) && |truths| == 3
    requires ParseUsize(p.inputs[slot].value).None?
    ensures var (q, o) := KeyDown(p, truths, slot, "Enter");
      o == BadGuess && q.inputs[slot].readOnly && q.answers == p.answers &&
      (slot < 2 ==> q.inputs[slot + 1] == p.inputs[slot + 1]) &&
      Type(q, slot, text) == q &&
      KeyDown(q, truths, slot, "Enter") == (q, BadGuess)
  {
    var q := KeyDown(p, truths, slot, "Enter").0;
    assert q.inputs[slot := q.inputs[slot].(readOnly := true)] == q.inputs;
  }

  /**
   * Enter on the third input, once its text parses: the popup is shown
   * exactly when no guess exceeds its true angle by more than 360. Otherwise
   * a displayed value is negative, its score text reads `+-…`, the parse
   * fails and the popup stays as it was.
   */
  lemma ThirdEnter(p: Page, truths: seq<nat>)
    requires Inv(p, truths) && !p.inputs[2].hidden && ParseUsize(p.inputs[2].value).Some?
    ensures var (q, o) := KeyDown(p, truths, 2, "Enter");
      (o == Finished || o == Aborted) && AllScored(q) &&
      (o == Finished <==> NoneOvershot(q, truths)) &&
      (o == Finished ==> q.popup == Some(Composed(q, truths))) &&
      (o == Aborted ==> q.popup == p.popup)
  {
    var (q, o) := KeyDown(p, truths, 2, "Enter");
    var guess := ParseUsize(p.inputs[2].value).value;
    var answered := p.(inputs := p.inputs[2 := p.inputs[2].(readOnly := true)],
                       answers := p.answers[2 := Answer(false, CellFor(guess, truths[2]))]);
    ThirdAnswered(p, truths, answered);
    FinishOnScoredCells(answered, truths);
    assert (q, o == Finished) == Finish(answered);
  }

  /** Once the third answer is written, every cell holds the displayed value of its input's guess. */
  lemma ThirdAnswered(p: Page, truths: seq<nat>, answered: Page)
    requires Inv(p, truths) && !p.inputs[2].hidden && ParseUsize(p.inputs[2].value).Some?
    requires answered == p.(inputs := p.inputs[2 := p.inputs[2].(readOnly := true)],
                            answers := p.answers[2 := Answer(false, CellFor(ParseUsize(p.inputs[2].value).value, truths[2]))])
    ensures Shaped(answered) && AllScored(answered)
    ensures forall k :: 0 <= k < 3 ==> answered.answers[k].cell.shown == ShownAt(answered, truths, k)
  {
    assert SlotInv(p, truths, 0) && SlotInv(p, truths, 1) && SlotInv(p, truths, 2);
  }

  /**
   * The shown popup holds the sum of the three displayed two-decimal values,
   * which lies in [0, 99.99]; its title is the band title of that sum, never
   * the one reserved for exactly 100 nor the fallback.
   */
  lemma FinalResult(p: Page, truths: seq<nat>)
    requires Inv(p, truths) && p.popup.Some?
    ensures AllScored(p)
    ensures var r := p.popup.value;
      var h0, h1, h2 := ShownAt(p, truths, 0), ShownAt(p, truths, 1), ShownAt(p, truths, 2);
      0 <= h0 <= 3333 && 0 <= h1 <= 3333 && 0 <= h2 <= 3333 &&
      r.parts == [h0 as real / 100.0, h1 as real / 100.0, h2 as real / 100.0] &&
      r.total == (h0 + h1 + h2) as real / 100.0 && 0.0 <= r.total <= 99.99 &&
      r.title == TitleFor(r.total) && r.title.Band? && r.title.k < 10
  {
    forall k | 0 <= k < 3
      ensures 0 <= ShownAt(p, truths, k) <= 3333
    {
      ShownRange(AbsDiff(ParseUsize(p.inputs[k].value).value, truths[k]));
    }
    PopupRange(ShownAt(p, truths, 0), ShownAt(p, truths, 1), ShownAt(p, truths, 2));
  }

  /** Three displayed values of at most 33.33 each sum to at most 99.99, which is titled by one of the ten bands. */
  lemma PopupRange(h0: int, h1: int, h2: int)
    requires 0 <= h0 <= 3333 && 0 <= h1 <= 3333 && 0 <= h2 <= 3333
    ensures var r := PopupOf(h0, h1, h2);
      r.parts == [h0 as real / 100.0, h1 as real / 100.0, h2 as real / 100.0] &&
      r.total == (h0 + h1 + h2) as real / 100.0 && 0.0 <= r.total <= 99.99 &&
      r.title == TitleFor(r.total) && r.title.Band? && r.title.k < 10
  {
    var total := h0 as real / 100.0 + h1 as real / 100.0 + h2 as real / 100.0;
    assert total == (h0 + h1 + h2) as real / 100.0;
    TitleSpecialCases(total);
  }

  /** The page of the game, with the three true angles captured when it was rendered. */
  class Document {
    const truths: seq<nat>
    var inputs: array<Input>
    var answers: array<Answer>
    var focus: Option<Slot>
    var popup: Option<Popup>

    ghost predicate Valid()
      reads this
    {
      inputs.Length == 3 && answers.Length == 3 && |truths| == 3
    }

    function Snapshot(): (p: Page)
      reads this, inputs, answers
      requires Valid()
      ensures Shaped(p)
    {
      Page(inputs[..], answers[..], focus, popup)
    }

    /** `app`: render the page for the three true angles. */
    constructor (angle1: nat, angle2: nat, angle3: nat)
      requires angle1 < 360 && angle2 < 360 && angle3 < 360
      ensures Valid() && fresh(inputs) && fresh(answers)
      ensures truths == [angle1, angle2, angle3] && Snapshot() == Initial()
      ensures Inv(Snapshot(), truths)
    {
      truths := [angle1, angle2, angle3];
      inputs := new Input[3][Input(false, false, ""), Input(true, false, ""), Input(true, false, "")];
      answers := new Answer[3][Answer(true, Blank), Answer(true, Blank), Answer(true, Blank)];
      focus, popup := None, None;
      new;
      InitialInv(truths);
    }

    /** `check_input`: a key pressed in input `slot`. */
    method CheckInput(slot: Slot, key: string) returns (outcome: Outcome)
      requires Valid()
      modifies this, inputs, answers
      ensures Valid() && inputs == old(inputs) && answers == old(answers)
      ensures (Snapshot(), outcome) == KeyDown(old(Snapshot()), truths, slot, key)
    {
      if key != "Enter" {
        return NotEnter;
      }
      ghost var p0 := Snapshot();
      inputs[slot] := inputs[slot].(readOnly := true);
      ghost var locked := p0.(inputs := p0.inputs[slot := p0.inputs[slot].(readOnly := true)]);
      assert Snapshot() == locked;
      var guessed := ParseUsize(inputs[slot].value);
      if guessed.None? {
        return BadGuess;
      }
      answers[slot] := Answer(answers[slot].hidden, CellFor(guessed.value, truths[slot]));
      answers[slot] := answers[slot].(hidden := false);
      ghost var answered := locked.(answers := locked.answers[slot := Answer(false, CellFor(guessed.value, truths[slot]))]);
      assert Snapshot() == answered;
      if slot < 2 {
        inputs[slot + 1] := inputs[slot + 1].(hidden := false);
        focus := Some(slot + 1);
        outcome := Revealed;
      } else {
        var ok := FinishGame();
        outcome := if ok then Finished else Aborted;
      }
    }

    /** `finish_game`: read the three score spans back, then fill and show the popup. */
    method FinishGame() returns (ok: bool)
      requires Valid()
      modifies this`popup
      ensures Valid()
      ensures (Snapshot(), ok) == Finish(old(Snapshot()))
    {
      var c1, c2, c3 := answers[0].cell, answers[1].cell, answers[2].cell;
      if c1.Blank? || c2.Blank? || c3.Blank? {
        return false;
      }
      var s1 := ParseFloat(ScoreText(c1.shown));
      var s2 := ParseFloat(ScoreText(c2.shown));
      var s3 := ParseFloat(ScoreText(c3.shown));
      if s1.None? || s2.None? || s3.None? {
        return false;
      }
      var total := s1.value + s2.value + s3.value;
      popup := Some(Popup(TitleFor(total), total, [s1.value, s2.value, s3.value]));
      ok := true;
    }

    /** The browser's editing of input `slot`, which reaches only a shown, writable input. */
    method TypeInto(slot: Slot, text: string)
      requires Valid()
      modifies inputs
      ensures Valid()
      ensures Snapshot() == Type(old(Snapshot()), slot, text)
    {
      if !inputs[slot].hidden && !inputs[slot].readOnly {
        inputs[slot] := inputs[slot].(value := text);
      }
    }
  }
}
