# A verified model of the rule engine of the "Set" card game

`set.js` runs a browser game of Set. Cards have four attributes:

- style: solid, outline or striped;
- shape: diamond, oval or squiggle;
- color: green, purple or red;
- count: 1, 2 or 3.

A card is known by its id, the attributes joined with "-", for example `solid-oval-red-2`. The board holds 9 cards (easy mode, where every card is solid) or 12 cards (standard mode). The player clicks cards to mark them. When three are marked, the marks are cleared. If the three form a set, the set counter goes up by one and the three cards are replaced in place by new cards whose ids are not yet on the board. A countdown runs beside the game, shown as "0m:ss", and when it reaches zero the game stops.

This project models that engine in Dafny and proves what the game relies on:

- the validity check decides the Set rule;
- ids split back into their attributes;
- generation never repeats an id already on the board;
- a board is dealt with 9 or 12 distinct ids and keeps its size and distinctness through every click;
- the countdown display reads back as the time it shows.

Modules, one per file:

- `Text` (`text.dfy`): JavaScript's `join`, `split`, `slice(0, -k)` and `String(n)` on strings.
- `Cards` (`cards.dfy`): the four attribute domains, a card's id (`Key`), and reading an id back (`ParseCard`).
- `SetRule` (`set_rule.dfy`): the rule (`IsSet`) and `isASet` as the source writes it, a loop over the split ids with an early exit.
- `Generator` (`generator.dfy`): `generateRandomAttributes` and the `while (dupes)` loop of `generateUniqueCard`.
- `Clock` (`clock.dfy`): `convertTime`.
- `Game` (`game.dfy`): a class `Game` whose fields are the page state the handlers change:
  - the board's ids in document order;
  - the `selected` mark of each card;
  - whether cards answer clicks;
  - the set count;
  - the countdown and its display;
  - the refresh button.

`Math.random()` is modelled as a tape, `tape: nat -> Draw`. The n-th generation attempt of the session reads the n-th `Draw`, a tuple of four indices in 0..2. The game's `cursor` says how much of the tape has been used. The tape is assumed fair: from any point on, every `Draw` occurs again (`Generator.Fair`). With that assumption the redraw loop is proved to stop: the board has ≤ 12 ids and the domain has 27 or 81 cards, so some card is always free.

Always-true facts about the game are in `Game.Game.Valid()`:

- at most twelve distinct card ids, each with a mark;
- at most two cards marked between clicks;
- no card marked once clicks are ignored.

Every handler keeps `Valid()`.

The uniqueness key includes the count. At `set.js:173` the duplicate check uses the full four-part `attributeString`, not the three-part `sliced`. The card's final id, set at `set.js:188` to `sliced + "-" + imgCount`, is that same four-part string (`Cards.SlicedKey`, `Generator.CardId`). A reading where cards that differ only in count would be treated as duplicates does not match the code. The model follows the code.

## Model

| member | source | states |
|---|---|---|
| `Text.Join` | set.js:169 | `join("-")` writes the first piece, then the separator when a second piece follows |
| `Text.Split` | set.js:353 | `id.split("-")` always gives at least one piece, and exactly one piece iff the id contains no "-" |
| `Text.SplitJoin` | set.js:169 | splitting the joined pieces on the separator gives back the pieces when none of them contains the separator (with `SplitNoSeparator` and `SplitAtSeparator` as steps) |
| `Text.JoinSplit` | set.js:353 | joining the pieces of any split gives back the original string |
| `Text.DropLast` | set.js:170 | `slice(0, -k)` leaves the prefix which, followed by the last k characters, is the whole string; a string shorter than k gives "" |
| `Text.NatStr` | set.js:169 | the decimal text `join` writes for a number is non-empty digits, one digit exactly for numbers below ten |
| `Text.IntStr` | set.js:254-257 | `String(n)` gives a non-empty text that starts with "-" exactly when n is negative |
| `Text.IntStrReads` | set.js:254-257 | the text of a number that is not negative is its decimal digits and reads back as it; a negative number's text is "-" followed by the digits of its magnitude |
| `Text.ParseNatStr` | set.js:169 | reading back a number's decimal text gives the number |
| `Text.NatStrInjective` | set.js:12 | distinct numbers have distinct decimal texts |
| `Cards.Attributes` | set.js:133-146 | the attribute array has four entries, in the order [STYLE, SHAPE, COLOR, COUNT] |
| `Cards.Key` | set.js:169 | the card's id, its four attribute strings joined with "-"; what it reads back as is stated by `Cards.SplitKey`, `Cards.ParseKey` and `Cards.KeyInjective` |
| `Cards.NamesHaveNoSeparator` | set.js:9-12 | no value of the four domains contains "-" |
| `Cards.SplitKey` | set.js:169 | splitting a card's id on "-" returns exactly [style, shape, color, count] |
| `Cards.ParseKey` | set.js:169 | a card's id reads back as that card |
| `Cards.KeyOfParse` | set.js:353 | any string that reads back as a card is that card's id |
| `Cards.KeyInjective` | set.js:169 | distinct cards have distinct ids |
| `Cards.SlicedKey` | set.js:169-170 | the id with its last two characters sliced off, followed by "-" and the count, is the id again; the slice names style, shape and color only |
| `SetRule.IsASet` | set.js:350-366 | the loop's answer is the all-same-or-all-different test at every position of the first id's parts, `undefined` past the end of a shorter part list; on three card ids it is the Set rule on the three cards |
| `SetRule.CardIdsVerdict` | set.js:350-366 | on three card ids, the verdict is the Set rule on the cards they name |
| `SetRule.NamesKeepRule` | set.js:356-361 | at each attribute, the values are all same or all different iff their names are |
| `SetRule.FourPositions` | set.js:355-365 | with four parts per id the loop visits exactly positions 0 to 3, and one failing position makes the verdict false |
| `SetRule.IsSetByPosition` | set.js:355-365 | three cards form a set iff at each of the four attribute positions their strings are all equal or pairwise distinct |
| `SetRule.KeyVerdict` | set.js:350-366 | the check on the ids of three cards says true iff the three cards form a set |
| `SetRule.VerdictOrderIndependent` | set.js:356-361 | the verdict on three card ids is the same for all six orders of selection |
| `SetRule.IdenticalCardsFormSet` | set.js:356-361 | three copies of one card always form a set |
| `SetRule.MalformedIdsOrderDependent` | set.js:355 | for ids with different numbers of parts the verdict can depend on order, because the loop runs over the first id's parts only |
| `Generator.GenerateRandomAttributes` | set.js:133-147 | the card drawn is of the difficulty's domain: in easy mode its style is always solid |
| `Generator.RandomAttributesCover` | set.js:133-146 | every card of the difficulty's domain is produced by some draw |
| `Generator.RandomAttributesInjective` | set.js:138-145 | in standard mode each attribute comes from its own index, so draws and cards correspond one to one |
| `Generator.CardAt` | set.js:9-12 | the cards of the domains, numbered 0 to 80, solid for the first 27 |
| `Generator.CardAtInjective` | set.js:9-12 | distinct numbers give distinct cards |
| `Generator.DomainKeysSize` | set.js:9-12 | the first n cards have n distinct ids |
| `Generator.DomainExceedsBoard` | set.js:133-146 | a board with fewer ids than the domain has cards (27 in easy mode, 81 in standard mode) leaves some card of the domain free |
| `Generator.FreshAttempt` | set.js:167-176 | on a fair tape, some attempt from any point on draws a card whose id is free |
| `Generator.Redraw` | set.js:167-176 | the loop returns the first attempt from its start whose id is not on the board; every attempt it skipped drew an id already present |
| `Generator.GenerateUniqueCard` | set.js:154-193 | the card returned is the one drawn at the last attempt consumed, all earlier attempts drew ids already present, its id is its full four-part key and is not on the board, and in easy mode it is solid |
| `Generator.CardId` | set.js:179-191 | the id the card element ends with, after its per-image updates, is the full four-part key that was checked for duplicates |
| `Clock.JsRemainder` | set.js:250 | JavaScript's `%`, the remainder of division truncated toward zero: in [0, b) for a non-negative dividend, in (-b, 0] for a negative one |
| `Clock.ConvertTime` | set.js:246-258 | the display always opens with the literal "0" and has at least four characters; its exact layout and round trip are `Clock.ConvertTimeFormat` and `Clock.ReadConvertTime` |
| `Clock.TwoDigits` | set.js:253-256 | the padded seconds are two digits that read back as the number |
| `Clock.ConvertTimeFormat` | set.js:246-258 | for a time that is not negative the display is "0", the minutes in decimal, ":" and the seconds as exactly two digits |
| `Clock.ReadConvertTime` | set.js:246-258 | the display of any time that is not negative reads back as that number of seconds |
| `Clock.ShortTimeLength` | set.js:246-258 | below ten minutes the display has five characters |
| `Clock.ConvertTimeZero` | set.js:246-258 | `convertTime(0)` is "00:00", the text `clearGame` resets the display to |
| `Clock.ConvertTimeNegative` | set.js:249-250 | one second below zero is shown as "0-1:0-1", since `Math.floor` and `%` round differently |
| `Game.SelectedPositions` | set.js:272 | `querySelectorAll('.card.selected')` lists exactly the marked positions, each once, in board order |
| `Game.ToggleCount` | set.js:270-272 | toggling one card changes the number of marked cards by exactly one |
| `Game.NoSelectedPositions` | set.js:272 | with no card marked the query returns nothing |
| `Game.Find` | set.js:294 | `getElementById` returns the first card carrying the id, or nothing when no card does |
| `Game.AddIds` | set.js:316-323 | the ids of the given cards, in the given order |
| `Game.BoardSize` | set.js:84-92 | 9 cards in easy mode, 12 in standard mode: never more than the twelve places, and always fewer than the difficulty's domain holds, so a fresh card always exists |
| `Game.Deal` | set.js:97-99 | the fill loop deals the requested number of cards with pairwise-distinct card ids, all of the difficulty's domain |
| `Game.ReplaceCard` | set.js:294-296 | the card with the given id is replaced in place by a card whose id was on the board nowhere; the board stays duplicate-free |
| `Game.ReplaceCards` | set.js:291-299 | replacing the selected cards one after another changes exactly their positions, keeps the board's size and distinctness, puts cards of the difficulty's domain there, and each new id differs from every old id still on the board when it was drawn (`DrawnFresh`), so the old cards are not merely moved about |
| `Game.ReshuffleIsNotFresh` | set.js:291-299 | moving the old cards among the replaced positions, [A,B,C,D] to [B,C,A,D], is not a replacement drawn fresh |
| `Game.ClearMarks` | set.js:278-280 | exactly the given cards lose their mark; clearing every marked card leaves none marked |
| `Game.ClearAll` | set.js:234-236 | every card loses its mark |
| `Game.SelectionVerdict` | set.js:282 | the verdict on the selected ids is the Set rule on the selected cards |
| `Game.Game.constructor` | set.js:19-46 | the loaded page: an empty board, no timer, no card answering clicks |
| `Game.Game.CreateGame` | set.js:83-100 | the board is 9 cards in easy mode and 12 in standard mode, with distinct ids, none marked, all answering clicks, solid in easy mode |
| `Game.Game.StartTimer` | set.js:198-211 | the countdown starts at the chosen seconds and the display shows them |
| `Game.Game.Start` | set.js:25-36 | the start button resets the count to 0, starts the countdown, deals a fresh board and enables refreshing |
| `Game.Game.Refresh` | set.js:43-46 | the refresh button, once enabled, deals a new board of the difficulty chosen at the start (9 or 12 distinct ids, none marked, all answering clicks) and leaves the count and the countdown alone |
| `Game.Game.ClearGame` | set.js:105-109 | the interval stops and the display reads "00:00", which is `convertTime(0)` |
| `Game.Game.StopPlay` | set.js:226-237 | when the time runs out, refreshing is disabled, the cards stop answering clicks and every mark is cleared, with the board left as it was |
| `Game.Game.AdvanceTimer` | set.js:217-239 | one second less, with the display in step; at zero or below, the timer stops at 0, refreshing is disabled, cards stop answering and lose their marks; the board and count never change |
| `Game.Game.CardSelected` | set.js:265-309 | a click while cards answer toggles the clicked card; below three marks nothing else changes; at three marks all lose their mark, the count goes up by one exactly when the three form a set, a non-set leaves the board alone, and a set replaces exactly those three positions with new distinct cards of the domain, each drawn fresh against the old cards still on the board; a click after the game stopped changes nothing |
| `Game.Game.ThreeSelected` | set.js:275-307 | the three-marks branch: marks cleared, count +1 iff the three form a set, board unchanged on a non-set and changed at exactly the three positions on a set, each new id none of the old ids on the board when it was drawn |

## Left out

- The DOM itself is not modelled (element creation, `classList`, `innerHTML`, images' `src`/`alt`); the board is the sequence of card ids in document order. A lookup by id assumes that the only elements carrying a card id are the card and its images below it, so the card is found first.
- `findDifficulty` (radio-button scanning) is not modelled. The difficulty is a parameter of `CreateGame`, `Start` and `CardSelected`. An unchecked radio group, where the source would pass `undefined` and get standard mode, is not modelled.
- `startTimer` reads the seconds from a `<select>`; the model takes them as a parameter. A value where `parseInt` gives `NaN` is not modelled.
- `setInterval`, `clearInterval`, `setTimeout` and the "SET!" / "Not a Set" banners (`sendMessage`) are left out: they are timing and display. `AdvanceTimer` is one tick of the interval, and `running` records whether the interval is active.
- `toggleViews` and the back button (`toggleViews` then `clearGame`, modelled by `ClearGame`) are not modelled as methods of their own. The refresh button is `Refresh`; its `clearBoard` is the board being replaced as a whole.
- `randomNum` is not modelled in floating point. Each index is a value in 0..2 from the tape. A `Math.random()` result of exactly 0 would give index -1 and an `undefined` attribute.
- The tape gives every attempt four indices. In easy mode the style index is drawn but not used, where the source makes only three calls to `Math.random()`.
- `Generator.GenerateUniqueCard` assumes a fair tape (`Fair`): the source's loop is only stopped by chance, and that assumption is what lets the model prove the loop terminates.
- `isASet` reads the `id` of each selected element. `Game.ThreeSelected` collects those ids with `AddIds` first and passes them to `IsASet`. The source calls `addIds` after `isASet` in each branch: that order reads the same ids and does not change the outcome.
- The count in #set-count is kept as a number. The round trip through `textContent` and `parseInt` is not modelled.
