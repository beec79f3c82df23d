/** The round and session state machine of the quiz: the fields of
    `currentState` together with the parts of the page that the game logic
    reads back (the answer boxes, the end-of-game panel), and one method per
    operation or callback that changes them. */
module Quiz {
  import opened Text
  import opened Slots
  import Clock
  import Shuffle

  /** One entry of the personality list: the name to guess and its clues. */
  datatype Personality = Personality(name: string, clues: seq<string>)

  /** The points a right answer earns while clue 0, 1, 2 or 3 is showing. */
  const CluePoints: seq<nat> := [10, 7, 5, 3]

  /** The index of the last clue; from there the clue button gives up. */
  const LastClue: nat := 3

  /** Length of a game, in timer ticks of one second. */
  const GameSeconds: int := 120

  datatype Screen = StartScreen | GameScreen | GameOverScreen

  /** The line the end-of-game panel shows. */
  datatype FinalMessage = NoMessage | AllPersonalitiesDone | TimeUp

  /** A one-shot callback waiting to fire: the pause after a right answer
      and the longer pause after giving up. */
  datatype Delay = AfterSolve | AfterGiveUp

  class Game {
    /** The personality list, shuffled in place at the start of each game. */
    const personalities: array<Personality>

    var score: int
    var timer: int
    /** Whether the one-second interval is scheduled (`timerInterval`). */
    var timerRunning: bool
    var currentLevelIdx: nat
    var currentClueIdx: nat
    var currentAnswer: string
    var isActive: bool

    /** The boxes laid out for the current name, and what its letter boxes
        show, in order. */
    var slots: seq<Slot>
    var cells: array<Cell>

    var screen: Screen
    var finalScore: int
    var finalMessage: FinalMessage
    var highScoreFormVisible: bool

    /** The delayed callbacks scheduled and not yet run. */
    var pending: multiset<Delay>

    /** The invariant of the session: the clue index stays within the
        table of points, the score is never negative, a running timer has
        time left, the boxes are those of the current name, there is one
        cell per letter box and the filled cells are the leading ones. */
    ghost predicate Valid()
      reads this, cells
    {
      RoundValid() && (timerRunning ==> timer >= 1)
    }

    /** `Valid` without the timer part, which a tick breaks for a moment
        before it ends the game. */
    ghost predicate RoundValid()
      reads this, cells
    {
      currentClueIdx <= LastClue &&
      score >= 0 &&
      slots == Layout(Trim(currentAnswer)) &&
      cells.Length == |LetterIndices(slots)| &&
      FilledPrefix(cells[..])
    }

    /** The board shows round `k` from its start: its name, its first clue,
        its boxes, all letter boxes empty. */
    ghost predicate RoundShown(k: nat)
      reads this, cells, personalities
    {
      k < personalities.Length &&
      currentAnswer == personalities[k].name &&
      currentClueIdx == 0 &&
      slots == Layout(Trim(currentAnswer)) &&
      cells[..] == Board([], cells.Length)
    }

    /** The end-of-game panel as `endGame` leaves it. */
    ghost predicate GameOverShown(completedAll: bool)
      reads this
    {
      !timerRunning &&
      screen == GameOverScreen &&
      finalScore == score &&
      finalMessage == (if completedAll then AllPersonalitiesDone else TimeUp) &&
      highScoreFormVisible == (score > 0)
    }

    twostate predicate RoundKept()
      reads this, cells
    {
      currentAnswer == old(currentAnswer) && currentClueIdx == old(currentClueIdx) &&
      slots == old(slots) && cells == old(cells) && cells[..] == old(cells[..])
    }

    twostate predicate PanelKept()
      reads this
    {
      screen == old(screen) && finalScore == old(finalScore) &&
      finalMessage == old(finalMessage) && highScoreFormVisible == old(highScoreFormVisible)
    }

    /** The state before the first game. */
    constructor (personalities: array<Personality>)
      ensures Valid() && this.personalities == personalities
      ensures score == 0 && timer == GameSeconds && !timerRunning
      ensures currentLevelIdx == 0 && currentClueIdx == 0 && currentAnswer == "" && !isActive
      ensures slots == [] && fresh(cells) && cells.Length == 0
      ensures screen == StartScreen && finalScore == 0 && finalMessage == NoMessage && !highScoreFormVisible
      ensures pending == multiset{}
    {
      this.personalities := personalities;
      score, timer, timerRunning := 0, GameSeconds, false;
      currentLevelIdx, currentClueIdx, currentAnswer, isActive := 0, 0, "", false;
      slots := [];
      cells := new Cell[0];
      screen, finalScore, finalMessage, highScoreFormVisible := StartScreen, 0, NoMessage, false;
      pending := multiset{};
    }

    /** `startGame`: resets the session, starts the one-second timer
        (replacing any running one), shuffles the personalities with the
        given draws and loads the first round. The game screen is shown last,
        even when there was no personality to load and the game has already
        ended. */
    method StartGame(picks: seq<nat>)
      requires Valid() && Shuffle.ValidPicks(picks, personalities.Length)
      modifies personalities, this`score, this`timer, this`currentLevelIdx, this`isActive
      modifies this`timerRunning, this`currentAnswer, this`currentClueIdx, this`slots, this`cells
      modifies this`finalScore, this`finalMessage, this`highScoreFormVisible, this`screen
      ensures Valid()
      ensures personalities[..] == Shuffle.Shuffled(old(personalities[..]), picks)
      ensures score == 0 && timer == GameSeconds && currentLevelIdx == 0 && screen == GameScreen
      ensures personalities.Length > 0 ==>
                isActive && timerRunning && RoundShown(0) && fresh(cells) &&
                finalScore == old(finalScore) && finalMessage == old(finalMessage) &&
                highScoreFormVisible == old(highScoreFormVisible)
      ensures personalities.Length == 0 ==>
                !isActive && !timerRunning && finalScore == 0 &&
                finalMessage == AllPersonalitiesDone && !highScoreFormVisible && RoundKept()
    {
      ResetSession();
      Shuffle.ShuffleArray(personalities, picks);
      LoadLevel();
      screen := GameScreen;
    }

    /** The first steps of `startGame`: score, timer and level index back to
        their initial values, input switched on, and `startTimer` scheduling
        the one-second interval (after clearing any earlier one). */
    method ResetSession()
      requires Valid()
      modifies this`score, this`timer, this`currentLevelIdx, this`isActive, this`timerRunning
      ensures Valid()
      ensures score == 0 && timer == GameSeconds && currentLevelIdx == 0 && isActive && timerRunning
    {
      score, timer, currentLevelIdx, isActive := 0, GameSeconds, 0, true;
      timerRunning := true;
    }

    /** `loadLevel`: ends the game as completed once every personality has
        been played; otherwise shows the current personality from its first
        clue, with fresh, empty boxes. */
    method LoadLevel()
      requires Valid()
      modifies this`currentAnswer, this`currentClueIdx, this`slots, this`cells
      modifies this`timerRunning, this`isActive, this`finalScore, this`finalMessage
      modifies this`highScoreFormVisible, this`screen
      ensures Valid()
      ensures currentLevelIdx >= personalities.Length ==>
                GameOverShown(true) && !isActive && RoundKept()
      ensures currentLevelIdx < personalities.Length ==>
                RoundShown(currentLevelIdx) && fresh(cells) && isActive == old(isActive) &&
                timerRunning == old(timerRunning) && PanelKept()
    {
      if currentLevelIdx >= personalities.Length {
        EndGame(true);
        return;
      }
      ShowRound(personalities[currentLevelIdx]);
    }

    /** The rest of `loadLevel`: takes the personality's name as the answer,
        goes back to its first clue and lays out its boxes, all empty. */
    method ShowRound(person: Personality)
      requires Valid()
      modifies this`currentAnswer, this`currentClueIdx, this`slots, this`cells
      ensures Valid()
      ensures currentAnswer == person.name && currentClueIdx == 0
      ensures slots == Layout(Trim(currentAnswer))
      ensures fresh(cells) && cells[..] == Board([], cells.Length)
    {
      var boxes := RenderSlots(person.name);
      var empty := new Cell[|LetterIndices(boxes)|](_ => Empty);
      currentAnswer, currentClueIdx, slots, cells := person.name, 0, boxes, empty;
      assert cells[..] == Board([], cells.Length);
      BoardFilled([], cells.Length);
    }

    /** `revealNextClue`: moves to the next clue, never past the last. */
    method RevealNextClue()
      requires Valid()
      modifies this`currentClueIdx
      ensures Valid()
      ensures currentClueIdx == if old(currentClueIdx) < LastClue then old(currentClueIdx) + 1 else LastClue
    {
      if currentClueIdx < LastClue {
        currentClueIdx := currentClueIdx + 1;
      }
    }

    /** The clue button, as `updateClueUI` binds it: the next clue while one
        is left, giving up at the last clue. It is bound only once a round
        has been loaded. */
    method PressClueButton()
      requires Valid() && currentLevelIdx < personalities.Length
      modifies cells, this`currentClueIdx, this`isActive, this`pending
      ensures Valid()
      ensures old(currentClueIdx) < LastClue ==>
                currentClueIdx == old(currentClueIdx) + 1 && isActive == old(isActive) &&
                pending == old(pending) && cells[..] == old(cells[..])
      ensures old(currentClueIdx) >= LastClue ==>
                currentClueIdx == LastClue && !isActive && pending == old(pending) + multiset{AfterGiveUp} &&
                cells[..] == Revealed(old(cells[..]), StripSeparators(currentAnswer))
    {
      if currentClueIdx >= LastClue {
        GiveUpAndSkip();
      } else {
        RevealNextClue();
      }
    }

    /** `giveUpAndSkip`: writes the name's letters into the letter boxes,
        freezes input and schedules the move to the next round. It awards
        nothing and, like the source, checks neither `isActive` nor the clue
        index. */
    method GiveUpAndSkip()
      requires Valid()
      modifies cells, this`isActive, this`pending
      ensures Valid()
      ensures cells[..] == Revealed(old(cells[..]), StripSeparators(currentAnswer))
      ensures !isActive && pending == old(pending) + multiset{AfterGiveUp}
    {
      var correctString := StripSeparators(currentAnswer);
      RevealedShape(cells[..], correctString);
      WriteLetters(correctString);
      isActive := false;
      pending := pending + multiset{AfterGiveUp};
    }

    /** The walk of `giveUpAndSkip` over the letter boxes: box `i` shows the
        i-th letter when there is one and keeps its content otherwise. */
    method WriteLetters(letters: string)
      modifies cells
      ensures cells[..] == Revealed(old(cells[..]), letters)
    {
      var i := 0;
      while i < cells.Length
        invariant 0 <= i <= cells.Length
        invariant forall k :: 0 <= k < i ==>
                    cells[k] == if k < |letters| then Filled(letters[k]) else old(cells[k])
        invariant forall k :: i <= k < cells.Length ==> cells[k] == old(cells[k])
      {
        if i < |letters| {
          cells[i] := Filled(letters[i]);
        }
        i := i + 1;
      }
    }

    /** `handleNativeInput`, given the text field's whole value: ignored
        while input is frozen; otherwise letter box `i` shows the i-th typed
        letter or nothing, and once every box is filled the letters are
        judged against the name's. */
    method HandleNativeInput(raw: string)
      requires Valid()
      modifies cells, this`score, this`isActive, this`pending
      ensures Valid()
      ensures !old(isActive) ==>
                cells[..] == old(cells[..]) && !isActive && score == old(score) && pending == old(pending)
      ensures old(isActive) ==>
                cells[..] == Board(TypedLetters(raw, |StripSeparators(currentAnswer)|), cells.Length) &&
                score == old(score) + (if Solves(raw, currentAnswer) then CluePoints[currentClueIdx] else 0) &&
                isActive == !Solves(raw, currentAnswer) &&
                pending == old(pending) + (if Solves(raw, currentAnswer) then multiset{AfterSolve} else multiset{})
    {
      if !isActive {
        return;
      }
      var targetLettersOnly := StripSeparators(currentAnswer);
      var userLettersOnly := TypedLetters(raw, |targetLettersOnly|);
      ShowTyped(userLettersOnly);
      BoardFilled(userLettersOnly, cells.Length);
      if |userLettersOnly| == |targetLettersOnly| {
        CheckAnswer(userLettersOnly, targetLettersOnly);
      }
    }

    /** The walk of `handleNativeInput` over the letter boxes: box `i` shows
        the i-th typed letter, or is cleared when fewer letters were typed. */
    method ShowTyped(typed: string)
      modifies cells
      ensures cells[..] == Board(typed, cells.Length)
    {
      var idx := 0;
      while idx < cells.Length
        invariant 0 <= idx <= cells.Length
        invariant forall k :: 0 <= k < idx ==>
                    cells[k] == if k < |typed| then Filled(typed[k]) else Empty
      {
        if idx < |typed| {
          cells[idx] := Filled(typed[idx]);
        } else {
          cells[idx] := Empty;
        }
        idx := idx + 1;
      }
    }

    /** `checkAnswer`: a right answer earns the points of the clue showing,
        freezes input and schedules the next round; a wrong one changes
        nothing (the source only shakes the card). */
    method CheckAnswer(userString: string, correctString: string)
      requires Valid()
      modifies this`score, this`isActive, this`pending
      ensures Valid()
      ensures userString == correctString ==>
                score == old(score) + CluePoints[currentClueIdx] && !isActive &&
                pending == old(pending) + multiset{AfterSolve}
      ensures userString != correctString ==>
                score == old(score) && isActive == old(isActive) && pending == old(pending)
    {
      if userString == correctString {
        var pointsEarned := CluePoints[currentClueIdx];
        score := score + pointsEarned;
        isActive := false;
        pending := pending + multiset{AfterSolve};
      }
    }

    /** One firing of the one-second interval: counts down, returns the text
        shown on the clock, and ends the game as timed out at zero. */
    method Tick() returns (display: string)
      requires Valid() && timerRunning
      modifies this`timer, this`timerRunning, this`isActive, this`finalScore, this`finalMessage
      modifies this`highScoreFormVisible, this`screen
      ensures Valid()
      ensures timer == old(timer) - 1 && timer >= 0
      ensures display == Clock.FormatClock(timer)
      ensures timer == 0 ==> GameOverShown(false) && !isActive
      ensures timer > 0 ==> timerRunning && isActive == old(isActive) && PanelKept()
    {
      timer := timer - 1;
      display := Clock.FormatClock(timer);
      if timer <= 0 {
        EndGame(false);
      }
    }

    /** A delayed callback fires: it is taken off the pending ones and its
        body runs. */
    method DelayElapsed(d: Delay)
      requires Valid() && d in pending
      modifies this`pending, this`currentLevelIdx, this`isActive
      modifies this`currentAnswer, this`currentClueIdx, this`slots, this`cells
      modifies this`timerRunning, this`finalScore, this`finalMessage
      modifies this`highScoreFormVisible, this`screen
      ensures Valid()
      ensures pending == old(pending) - multiset{d}
      ensures currentLevelIdx == old(currentLevelIdx) + 1 && isActive
      ensures currentLevelIdx >= personalities.Length ==> GameOverShown(true) && RoundKept()
      ensures currentLevelIdx < personalities.Length ==>
                RoundShown(currentLevelIdx) && fresh(cells) &&
                timerRunning == old(timerRunning) && PanelKept()
    {
      pending := pending - multiset{d};
      NextRound();
    }

    /** The body of both delayed callbacks: the level index moves on by one,
        the next round loads (or the game ends as completed), and input is
        switched back on, even when the game has just ended. */
    method NextRound()
      requires Valid()
      modifies this`currentLevelIdx, this`isActive
      modifies this`currentAnswer, this`currentClueIdx, this`slots, this`cells
      modifies this`timerRunning, this`finalScore, this`finalMessage
      modifies this`highScoreFormVisible, this`screen
      ensures Valid()
      ensures currentLevelIdx == old(currentLevelIdx) + 1 && isActive
      ensures currentLevelIdx >= personalities.Length ==> GameOverShown(true) && RoundKept()
      ensures currentLevelIdx < personalities.Length ==>
                RoundShown(currentLevelIdx) && fresh(cells) &&
                timerRunning == old(timerRunning) && PanelKept()
    {
      currentLevelIdx := currentLevelIdx + 1;
      LoadLevel();
      isActive := true;
    }

    /** `endGame`: stops the timer, freezes input and shows the final score,
        the message for how the game ended and, for a positive score, the
        form to save it. */
    method EndGame(completedAll: bool)
      requires RoundValid()
      modifies this`timerRunning, this`isActive, this`finalScore, this`finalMessage
      modifies this`highScoreFormVisible, this`screen
      ensures Valid()
      ensures GameOverShown(completedAll) && !isActive
    {
      timerRunning, isActive := false, false;
      finalScore, finalMessage := score, if completedAll then AllPersonalitiesDone else TimeUp;
      CheckForHighScore(score);
      screen := GameOverScreen;
    }

    /** The restart button on the game-over screen: back to the start
        screen, with the state of the finished game left as it is. */
    method Restart()
      requires Valid()
      modifies this`screen
      ensures Valid() && screen == StartScreen
    {
      screen := StartScreen;
    }

    /** `checkForHighScore`: the form to save a score is shown exactly for a
        positive score. */
    method CheckForHighScore(score: int)
      modifies this`highScoreFormVisible
      ensures highScoreFormVisible == (score > 0)
    {
      highScoreFormVisible := score > 0;
    }
  }
}
