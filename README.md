# A verified model of the GEOO name quiz

GEOO is a timed "guess the name" quiz played in the browser. In each round
the player sees up to four clues about a personality and types that
personality's name into a row of letter boxes. A right answer earns 10, 7, 5
or 3 points, depending on how many clues were showing. The player may also
give up on the last clue, which reveals the name and earns nothing. A game
lasts 120 seconds or until every personality has been played; at the end, a
positive score may be saved.

This project models in Dafny the game logic of `script.js`. The model has
five modules:

- `Text`: the two string operations the game relies on.
  - `trim()`, applied to a name before its boxes are laid out.
  - The removal of spaces and hyphens (`replace(/[ -]/g, '')`), applied to
    the answer and to the player's input.
- `Slots`: the answer board.
  - The split of the trimmed name into words and separators.
  - `renderSlots`, which lays out one box per character: a separator box for
    a space or hyphen and a numbered letter box otherwise.
  - What the letter boxes show after input or after giving up.
  - How the field's value is cut down to letters and judged.
- `Clock`: the `MM:SS` text shown on each timer tick.
- `Shuffle`: `shuffleArray`, the in-place Fisher–Yates shuffle.
  - The random draw of step `i` is a parameter `picks[i]` with
    `picks[i] <= i`.
- `Quiz`: the session state machine, as a class `Game`.
  - Its fields are those of `currentState` plus the page state the logic
    reads back: the boxes, the screen shown, the end-of-game panel and
    whether the one-second interval is scheduled.
  - Each operation is a method: `startGame`, `loadLevel`, `revealNextClue`,
    the clue button, `giveUpAndSkip`, `handleNativeInput`, `checkAnswer`,
    the timer tick, the two delayed callbacks, `endGame`,
    `checkForHighScore` and the restart button.
  - The two delayed callbacks that move to the next round (script.js:205,
    278) are kept, while not yet run, in a multiset `pending`. Running one
    is the method `DelayElapsed`. The other `setTimeout` callbacks only move
    the focus or end the shake animation, and are left out with the rest of
    the presentation.

The invariant `Game.Valid` holds before and after every operation, with one
exception: `Game.EndGame` needs only `Game.RoundValid`, which is `Valid`
without the timer part. This is because a tick calls it once the time has run
out, while the interval is still marked as running. `Game.WriteLetters`,
`Game.ShowTyped` and `Game.CheckForHighScore` are internal steps of other
operations and do not mention the invariant. `Valid` states that:

- the clue index stays within the points table `[10, 7, 5, 3]`;
- the score is never negative;
- a running timer has time left;
- the boxes are those of the current name, that is, the layout of its
  trimmed form;
- there is one letter cell per letter box;
- the filled cells are the leading ones.

The model keeps the behaviour of the code as written. It reproduces these
edge cases:

- `giveUpAndSkip` checks neither `isActive` nor the clue index.
  - It is reached only through the clue button, which `updateClueUI` binds
    to giving up from the last clue on (`Game.PressClueButton`).
- Both delayed callbacks set `isActive` back to true after `loadLevel`.
  - This happens even when `loadLevel` has just ended the game.
  - It also happens when the timer ended the game while the callback was
    waiting.
  - In that case the next round is loaded and input is switched on behind
    the game-over screen (`Game.NextRound`, `Game.DelayElapsed`).
- `startGame` shows the game screen after `loadLevel`.
  - With an empty personality list, the game has already ended and the game
    screen still comes last.
- The boxes are laid out from the trimmed name, but the target letters come
  from the untrimmed name.
  - The two agree when the only white space in a name is the plain space
    (`Text.TrimKeepsLetters`, `Slots.BoxesForName`).

Three more behaviours of the code that the model keeps:

- No name is rejected. An empty name gives no boxes and no target letters, so
  the next input event is judged, and counted as right.
- The clue button is not gated by `isActive`.
- The shuffle works in place on the one personality list, not on a copy.

## Model

| member | source | states |
|---|---|---|
| Text.StripSeparators | script.js:187 | the stripped string is no longer than its input and holds no space or hyphen |
| Text.StripKeepsLetters | script.js:222 | stripping removes exactly the spaces and hyphens: every other character keeps its number of occurrences |
| Text.StripAppend | script.js:217 | stripping commutes with concatenation, so the letters of a string are the letters of its parts, in order |
| Text.StripNoSeparators | script.js:222 | a string without spaces or hyphens is left unchanged |
| Text.TrimCuts | script.js:108 | `trim()` keeps a contiguous middle part of the name, and everything cut off on either side is ECMAScript white space or a line terminator |
| Text.TrimEnds | script.js:108 | the part `trim()` keeps neither starts nor ends with white space, so the cut is maximal |
| Text.TrimKeepsLetters | script.js:108 | when the only white space in a name is the plain space, trimming does not change its letters |
| Slots.PiecesShape | script.js:109 | `split(/([ -])/)` gives an odd number of pieces: runs without separators at even positions, single separators at odd positions, and joined back they give the trimmed name |
| Slots.RenderSlots | script.js:106-143 | the boxes are exactly one per character of the trimmed name: a separator box for a space or hyphen, otherwise a letter box numbered with the character's position |
| Slots.PieceSlots | script.js:113-142 | one piece of the walk: nothing for an empty piece, one separator box for a separator, one numbered letter box per character of a word, with the running position advanced by the piece's length |
| Slots.LayoutSpellsLetters | script.js:106-143 | there are as many letter boxes as the name has letters once spaces and hyphens are removed, and the j-th letter box sits on the j-th such letter |
| Slots.BoxesForName | script.js:186-187 | for a name whose only white space is the plain space, the letter boxes and the target letters are equal in number |
| Slots.TypedLetters | script.js:222-226 | the letters an input contributes are the longest start of the stripped value that fits the target: their length is the minimum of the two lengths, and they hold no separator |
| Slots.BoardFilled | script.js:231-239 | after an input event exactly min(typed letters, boxes) boxes are filled, and they are the leading ones |
| Slots.RevealedShape | script.js:190-198 | writing the name's letters into the boxes keeps the filled boxes leading, and when there is a letter for every box the board shows exactly the name's letters |
| Slots.Verdict | script.js:244-246 | an answer is judged exactly when the field holds at least as many letters as the name, and it is right exactly when the name's letters are a prefix of the field's letters |
| Clock.Decimal | script.js:311 | `toString()` of a non-negative integer: decimal digits with no leading zero whose value is the number |
| Clock.PadTwoValue | script.js:311 | `padStart(2, '0')` keeps the value of a digit string and makes it at least two digits long |
| Clock.FormatClock | script.js:309-311 | the clock text is digits, a colon and two digits; read back, they are the whole minutes and the remaining seconds, and the text is `MM:SS` while fewer than 100 minutes remain |
| Shuffle.SwapPermutes | script.js:337 | one exchange of two elements leaves the same multiset of elements |
| Shuffle.StepsDownPermutes | script.js:335-338 | the steps of the descending loop keep the length and the multiset of elements |
| Shuffle.ShuffledPermutes | script.js:334-339 | the whole shuffle is a permutation of its input |
| Shuffle.ShuffleArray | script.js:334-339 | the loop swapping element `i` with element `picks[i]` for `i` from the last index down to 1 leaves the array as the specification shuffle of its old contents, a permutation of them |
| Quiz.Game.constructor | script.js:2-11 | the initial state: score 0, 120 seconds, level and clue 0, no answer, input off, start screen |
| Quiz.Game.StartGame | script.js:69-83 | score, timer and level are reset, the timer runs, the personalities are shuffled, and the first round is shown from clue 0 with empty boxes; with no personality the game ends at once as completed, and the game screen is shown last either way |
| Quiz.Game.ResetSession | script.js:70-76 | score 0, 120 seconds, level 0, input on, and one timer scheduled |
| Quiz.Game.LoadLevel | script.js:85-104 | past the last personality the game ends as completed and the board is untouched; otherwise the current personality is shown from clue 0 with its boxes, all empty, and nothing else changes |
| Quiz.Game.ShowRound | script.js:91-100 | the answer becomes the personality's name, the clue index 0, the boxes the layout of the trimmed name, and the letter cells new and empty |
| Quiz.Game.RevealNextClue | script.js:176-182 | the clue index goes up by one while below 3 and never passes 3 |
| Quiz.Game.PressClueButton | script.js:160-173 | once a round is loaded, below the last clue a click reveals the next clue and changes nothing else; from the last clue it gives up |
| Quiz.Game.GiveUpAndSkip | script.js:184-210 | the name's letters are written into the letter boxes, the score is unchanged, input is frozen and the move to the next round is scheduled |
| Quiz.Game.WriteLetters | script.js:190-198 | box i shows the i-th letter when there is one and keeps its content otherwise |
| Quiz.Game.HandleNativeInput | script.js:213-247 | ignored while input is frozen; otherwise box i shows the i-th typed letter or nothing, and the score rises by the points of the current clue, input freezes and the next round is scheduled exactly when the typed letters equal the name's letters |
| Quiz.Game.ShowTyped | script.js:231-239 | box i shows the i-th typed letter, or is cleared when fewer letters were typed |
| Quiz.Game.CheckAnswer | script.js:260-299 | a right answer adds exactly `[10,7,5,3][clue]` to the score, freezes input and schedules the next round; a wrong one changes nothing |
| Quiz.Game.Tick | script.js:307-314 | the timer goes down by one and the clock text is its `MM:SS` form; at zero the game ends as timed out, otherwise only the timer changes |
| Quiz.Game.DelayElapsed | script.js:205-209 | a pending callback is consumed and runs the next-round body |
| Quiz.Game.NextRound | script.js:278-282 | the level goes up by exactly one, the next round is shown or the game ends as completed, and input is switched on in either case |
| Quiz.Game.EndGame | script.js:317-331 | the timer stops, input is frozen, the game-over screen shows the final score and the message for how the game ended, and the save form is visible exactly when the score is positive |
| Quiz.Game.Restart | script.js:48 | the restart button shows the start screen again and leaves the state of the finished game as it is |
| Quiz.Game.CheckForHighScore | script.js:400-403 | the save form is visible exactly when the score is positive |

## Left out

- The DOM is not modelled: element lookups, classes, styles, animations,
  focus and blur handling. Neither are `highlightActiveSlot`, `updateHUD`,
  or the clue text, label and points that `updateClueUI` writes. All of
  these are presentation only. The model keeps only the letter each box
  shows.
- The colours that mark a skipped or solved round are not modelled, and
  neither is the shake after a wrong answer. Both are styling.
- Firebase and the leaderboard are not modelled: `initFirebase`,
  `submitHighScore`, `loadLeaderboard` and `renderLeaderboard`. They are
  external asynchronous I/O.
- The player's entry of a name for the high score is not modelled, for the
  same reason.
- `Math.random` is not modelled. Its draws are the `picks` parameter of
  `StartGame` and `Shuffle.ShuffleArray`.
- Real time is not modelled. The one-second interval is the method
  `Game.Tick`, and the 1000 ms and 2000 ms callbacks are entries of the
  multiset `pending`, run by `Game.DelayElapsed` in any order. The model
  does not capture the timing that decides which callback fires first.
- The text field is a parameter of `Game.HandleNativeInput`: the field's
  whole value at the time of the event. Clearing the field in `loadLevel` is
  not modelled.
- The event-listener wiring is not modelled. Game.PressClueButton states the
  net effect of a click on the clue button: the default listener and the
  `onclick` handler that `updateClueUI` rebinds during the same click
  together perform one action per click.
- Strings are sequences of Unicode scalar values. The source works on UTF-16
  code units, and the two differ only for characters outside the Basic
  Multilingual Plane.
- The personality data file is not part of this model. `Personality` keeps
  the name and the list of clues, and only the name is used by the logic
  modelled.
- Quiz.Game.PressClueButton requires a loaded round (`currentLevelIdx <
  personalities.Length`). With an empty personality list, `startGame` shows
  the game screen without ever loading a round, so `updateClueUI` never binds
  the button. A click then runs only the default listener `revealNextClue`,
  which raises the clue index and then throws in `updateClueUI`, which reads
  the clues of a personality that does not exist. The model does not cover
  that click.
- Quiz.Game.Tick requires the interval to be scheduled (`timerRunning`),
  since the source's interval fires only then.
