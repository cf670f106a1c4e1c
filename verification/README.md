# Angle guessing game: a verified model of its core

The game (`src/app.rs`) shows three drawn angles. The player types a guess
for each, one after the other, and presses Enter. After each guess the page
reveals the true angle and the points the guess earned. After the third
guess a popup shows the total and a title chosen from that total. The three
angles come from a random generator seeded by the date.

This project models that core in Dafny:

- **Scorer** (`scorer.dfy`, module `Scorer`) is the scoring inside
  `check_input`:
  - the error is the plain distance `abs_diff`;
  - the similarity percentage is `(360 - error) / 360 * 100`;
  - the category (`perfect`, `good`, `almost`, `error`, `failure`) comes
    from an ordered first-match list;
  - the points are the percentage divided by 3;
  - the page shows the points with two decimals.
  
  The error is an integer, so every quantity is an exact rational and is a
  `real` here. The displayed value is kept as integer hundredths: the
  integer nearest to (360 − error)·250/27.
- **Decimal** (`decimal.dfy`, module `Decimal`) holds the three text
  conversions the page relies on:
  - `str::parse::<usize>` for the typed guess (32-bit `usize`, since the
    page runs as wasm32);
  - `{:.2}` for the displayed points;
  - `str::parse::<f32>` when `finish_game` reads those points back.
- **Verdict** (`verdict.dfy`, module `Verdict`) is
  `generate_title_for_score`, the ordered match that picks the popup's title.
- **Seed** (`seed.dfy`, module `Seed`) is the seed formula of
  `generate_svg`: `year * month * day + part`, where the month is
  JavaScript's 0-based `getMonth`.
- **Controller** (`controller.dfy`, module `Controller`) is the page as
  state:
  - the three inputs, each with its hidden and read-only flags and its text;
  - the three answer cells, each with its hidden flag and contents;
  - the focus and the popup.

  The datatype `Page` is that state as a value. `KeyDown` (`check_input`),
  `Finish` (`finish_game`) and `Type` (the browser editing an input) say
  what one event does to it. `Inv` is what holds on every page reachable
  from the initial one. The class `Document` keeps the same state in two
  three-element arrays. Its constructor and its methods `CheckInput`,
  `FinishGame` and `TypeInto` are proved to do exactly what those
  functions say.

Behaviour of the code that the model makes explicit:

- `check_input` makes the input read-only *before* it parses the text. A
  text that is not a `usize` therefore locks the input for good: the parse
  throws, no answer is written, and the next round never opens
  (`MalformedGuessLocks`).
- Enter pressed again on a locked input runs the handler again, at any
  later time. The same answer is written again, the next input only
  receives the focus, and on the third input the same popup is composed
  again (`ReEnterAnswered`, `RepeatedEnter`).
- The `max="360"` attribute is not enforced by the parse, so larger guesses
  are scored. A guess more than 360 above the truth gets negative points
  (`OversizedGuess`). The score span then reads `+-…`, which the `f32`
  parse in `finish_game` rejects, so the game ends without a popup
  (`ThirdEnter`). A negative total, and with it the fallback title, is
  therefore never reached through play.
- Each displayed value is at most 33.33, so a shown total is at most 99.99.
  The title reserved for exactly 100 is unreachable (`FinalResult`).

## Model

| member | source | states |
|---|---|---|
| Scorer.AbsDiff | src/app.rs:70 | The error is the plain distance between guess and truth: one of them is the other plus the error. |
| Scorer.CategoryByError | src/app.rs:70-81 | The first-match category of the percentage equals an independent list of integer error bands: 0 perfect, 1–18 good, 19–35 failure (the 90–95 gap), 36–120 almost, 121–240 error, 241 and above failure. |
| Scorer.ScoreSymmetric | src/app.rs:70-81 | Swapping guess and truth gives the same score, and the category is the error band of the distance. |
| Scorer.PointsRange | src/app.rs:70-82 | Points never exceed 100/3. They reach it exactly when the guess is right, which is also exactly when the category is perfect. Points are non-negative when both angles are at most 360. |
| Scorer.OversizedGuess | src/app.rs:60-82 | A guess more than 360 above the truth is scored anyway: its points and its displayed value are negative, and its category is failure. |
| Scorer.ShownIsNearest | src/app.rs:82-84 | The displayed hundredths lie within one half of 100 × points. Any integer that does so is the displayed value, so the rounding never meets a tie. |
| Scorer.ShownRange | src/app.rs:82-84 | The displayed value is non-negative exactly when the error is at most 360. It is at most 33.33, and equal to 33.33 exactly for an exact guess. |
| Decimal.AllDigitsAt | src/app.rs:60 | The digit-string predicate holds exactly when every character is an ASCII digit. |
| Decimal.NatToDecimalValue | src/app.rs:84 | The decimal text of a natural number reads back as that number. |
| Decimal.ParseUsizeDecimal | src/app.rs:60 | Every `usize` value is parsed back from its decimal text, with or without a leading `+`. |
| Decimal.ParseUsizeRejects | src/app.rs:60 | Any non-digit character, other than a `+` in first place, makes the guess parse fail (`-3`, `1.5`, `1e3`). |
| Decimal.ParseUsizeDigits | src/app.rs:60 | A non-empty digit string parses exactly when its value fits in 32 bits, and then to that value. |
| Decimal.FixedTwo | src/app.rs:84 | `{:.2}` of a non-negative value is the whole part, a `.`, and the two digits of the hundredths. |
| Decimal.ScanDigits | src/app.rs:101-103 | Scanning a run of digits adds them to the value read so far and to the count of decimals. |
| Decimal.UnsignedFixed2 | src/app.rs:84-103 | The unsigned `{:.2}` text of m hundredths scans back to m/100. |
| Decimal.FormatFixed2Value | src/app.rs:84-103 | Round trip: the float parse of `{:.2}` of any hundredths value, of either sign, is that value. |
| Decimal.ScoreTextValue | src/app.rs:84-103 | The score span's text `+{points:.2}` reads back as its value when that is non-negative. When it is negative, the text carries two signs and the parse fails. |
| Verdict.TitleInBand | src/app.rs:193-207 | A total in band k, (10k, 10k+10] (with 0 included for k = 0) and not exactly 100, gets band k's title. A shared boundary goes to the lower band. |
| Verdict.TitleSpecialCases | src/app.rs:194-208 | Exactly 100 gets the cheating title, and only 100 does. Below 0 or above 100 gets the fallback. Every other total gets one of the ten band titles. |
| Seed.SeedFitsU32 | src/app.rs:128 | For every date a JavaScript `Date` holds (month counted from 0), the `u32` seed product does not wrap around. |
| Seed.SeedByPart | src/app.rs:128 | On one date, the three drawings get distinct seeds, one apart. |
| Seed.JanuarySeed | src/app.rs:128 | In January the seed is `part`, whatever the year and day. |
| Controller.Finish | src/app.rs:97-116 | `finish_game` either shows a popup and changes nothing else, or changes nothing. |
| Controller.KeyDown | src/app.rs:54-95 | Keys other than Enter change nothing. Enter always locks the input and never edits any input's text. The guess parse fails exactly when the outcome is the thrown error, and then only the lock is kept. A parsed guess writes and reveals its answer cell. The next input is revealed exactly on a parsed guess in the first two slots, and then the page is the answered page with input slot+1 shown and focused, nothing else changed. On the third slot the page and outcome are those of `finish_game` on the answered page. |
| Controller.Type | src/app.rs:40-42 | A hidden or read-only input does not take typed text. |
| Controller.InitialInv | src/app.rs:40-47 | The page as first rendered satisfies the invariant. |
| Controller.CellReadsBack | src/app.rs:82-103 | A written cell's displayed value is non-negative exactly when the guess is at most 360 above the truth, and is at most 33.33. Its score text reads back as that value, or fails to parse when the value is negative. |
| Controller.FinishOnScoredCells | src/app.rs:97-116 | On three cells written by `check_input`, `finish_game` shows the popup composed from the three guesses exactly when none overshoots by more than 360. Otherwise the page is unchanged. |
| Controller.FinishReadsShown | src/app.rs:98-111 | `finish_game` on three written cells shows the popup built from their displayed values when all are non-negative, and otherwise aborts unchanged. |
| Controller.FinishTwice | src/app.rs:97-116 | Running `finish_game` again on its own result gives the same page and outcome. |
| Controller.KeyDownInv | src/app.rs:54-95 | Every key delivered to a shown input keeps the invariant. |
| Controller.BadGuessInv | src/app.rs:59-60 | Enter on a text that is not a guess keeps the invariant. |
| Controller.RevealInv | src/app.rs:83-90 | Enter on a guess in the first two slots keeps the invariant. |
| Controller.ThirdEnterInv | src/app.rs:83-93 | Enter on a guess in the third slot keeps the invariant. |
| Controller.TypeInv | src/app.rs:54-60 | Editing keeps the invariant, because a locked input's text cannot change. |
| Controller.RoundsInOrder | src/app.rs:40-48 | On every reachable page the shown inputs form a prefix. Answer k is written only after all earlier ones and is then revealed. A shown popup means all three answers are written and revealed. |
| Controller.RepeatedEnter | src/app.rs:55-93 | A second Enter on the same input gives the same page and outcome as the first. |
| Controller.ReEnterAnswered | src/app.rs:55-93 | Enter on an input whose answer is already written, at any later point of the game, rewrites the same answer and changes nothing but the focus; on the third input it gives the same page, shown popup and outcome again. |
| Controller.ReEnterRound | src/app.rs:59-90 | The first two slots' case: only the focus moves to the already shown next input. |
| Controller.ReEnterThird | src/app.rs:87-93 | The third slot's case: the page is unchanged and the game ends finished exactly when the popup is shown. |
| Controller.RepeatedThirdEnter | src/app.rs:87-93 | On the third input a second Enter recomposes the same popup. |
| Controller.MalformedGuessLocks | src/app.rs:59-60 | A malformed text still locks its input, writes no answer and leaves the next input as it was. Typing can no longer change it, and every further Enter fails the same way. |
| Controller.ThirdEnter | src/app.rs:87-116 | Enter on a parsed third guess ends the game. The popup is shown exactly when no guess overshoots by more than 360, and it is then the one composed from the three guesses. Otherwise the popup is left as it was. |
| Controller.ThirdAnswered | src/app.rs:83-86 | Once the third answer is written, every cell holds the displayed value of its own input's guess. |
| Controller.FinalResult | src/app.rs:101-111 | A shown popup holds the three displayed two-decimal values and their sum. Each value lies in [0, 33.33], so the sum lies in [0, 99.99], and its title is one of the ten band titles, never the cheating title or the fallback. |
| Controller.PopupRange | src/app.rs:109-111 | Three values in [0, 33.33] sum to at most 99.99, which is titled by a band. |
| Controller.Document.constructor | src/app.rs:10-48 | `app` renders the initial page, with only the first input shown and every answer hidden and empty, and that page satisfies the invariant. |
| Controller.Document.CheckInput | src/app.rs:54-95 | The in-place handler leaves the page and outcome that `KeyDown` gives for the page it started from. |
| Controller.Document.FinishGame | src/app.rs:97-117 | The in-place `finish_game` leaves the page and outcome that `Finish` gives. |
| Controller.Document.TypeInto | src/app.rs:40-42 | The in-place edit leaves the page that `Type` gives. |

## Left out

- The true angles come from `SmallRng` and `random_range`, whose algorithm is not part of this model. They are parameters, assumed to lie in 0..359.
- The trigonometry of the ray endpoints, the degree/radian conversions and the truncation back to `usize` (src/app.rs:130-151) are `f32` numerics and are not modelled.
- The SVG markup, including the `angle < 180` drawing branch (src/app.rs:152-189), is rendering only and is not modelled.
- Not modelled: DOM plumbing (`get_element_by_id`, `dyn_into`), the overlay's and popup's `style` properties, and the Yew component. The popup being shown is the `popup` field.
- The popup title is chosen from the exact sum of the three displayed values. The program sums the `f32` values, and on a band boundary that sum can land just above it: 0.09, 8.06 and 1.85 sum to exactly 10, but their `f32` sum is slightly above 10, so the program shows band 1's title where the model shows band 0's.
- Scores are exact rationals. The `f64` arithmetic of `check_input` and the `f32` parse and sum of `finish_game` are not modelled bit for bit. The title is chosen from the exact sum.
- The popup keeps the title, the total and the three parts as values. The `Display` texts `Score: …` and `… + … + …` are not modelled.
- Decimal.ParseFloat covers signs, digits and one decimal point. It does not accept the exponent, `inf` and `nan` forms of Rust's float parse, which no score text contains.
- The browser's sanitising of `type="number"` input values is not modelled: `Type` stores any text.
- Not modelled: conversions of the JavaScript date getters to `u32`, and years before 0.
- A thrown error or panic ends the handler at that point and keeps what was already written. Not modelled: what the runtime does after it.
- The host delivers key events only to shown inputs, so the invariant lemmas for key events assume the input is shown.
