/** The answer board: the boxes `renderSlots` lays out for a name, what the
    letter boxes show, and how the value of the hidden text field is turned
    into letters and judged. */
module Slots {
  import opened Text

  /** One box of the board: a letter box, carrying its position in the
      trimmed name (the `data-index` the source stores), or a separator box
      for a space or hyphen, which the player never types into. */
  datatype Slot = LetterSlot(index: nat) | SeparatorSlot(mark: char)

  /** What a letter box shows. */
  datatype Cell = Empty | Filled(letter: char)

  /** The box for position `k` of the trimmed name. */
  function SlotFor(name: string, k: nat): Slot
    requires k < |name|
  {
    if IsSeparator(name[k]) then SeparatorSlot(name[k]) else LetterSlot(k)
  }

  /** Reference layout of a trimmed name: one box per character. */
  function Layout(name: string): seq<Slot>
  {
    seq(|name|, k requires 0 <= k < |name| => SlotFor(name, k))
  }

  function Concat(ws: seq<string>): string
  {
    if ws == [] then [] else ws[0] + Concat(ws[1..])
  }

  predicate IsSeparatorPiece(w: string)
  {
    |w| == 1 && IsSeparator(w[0])
  }

  /** `s.split(/([ -])/)`: the runs of letters between separators (possibly
      empty) alternating with the separators themselves, which the capturing
      group keeps. */
  function Pieces(s: string): seq<string>
  {
    if s == [] then [[]]
    else
      var rest := Pieces(s[1..]);
      if IsSeparator(s[0]) then [[], [s[0]]] + rest
      else [[s[0]] + (if rest == [] then [] else rest[0])] + (if rest == [] then [] else rest[1..])
  }

  /** Pieces that alternate: an odd number of them, runs without
      separators at even positions and single separators at odd ones. */
  predicate Alternates(ws: seq<string>)
  {
    |ws| % 2 == 1 &&
    (forall i :: 0 <= i < |ws| && i % 2 == 1 ==> IsSeparatorPiece(ws[i])) &&
    (forall i :: 0 <= i < |ws| && i % 2 == 0 ==> NoSeparators(ws[i]))
  }

  /** The pieces of a string alternate, and joined back together they give
      the string that was split. */
  lemma {:induction false} PiecesShape(s: string)
    ensures Alternates(Pieces(s))
    ensures Concat(Pieces(s)) == s
  {
    if s != [] {
      PiecesShape(s[1..]);
      var rest := Pieces(s[1..]);
      assert s == [s[0]] + s[1..];
      if IsSeparator(s[0]) {
        SeparatorFirst(s[0], rest);
      } else {
        LetterFirst(s[0], rest);
        LetterConcat(s[0], rest[0], rest[1..]);
        assert [rest[0]] + rest[1..] == rest;
      }
    }
  }

  lemma SeparatorFirst(c: char, rest: seq<string>)
    requires IsSeparator(c) && Alternates(rest)
    ensures Alternates([[], [c]] + rest)
    ensures Concat([[], [c]] + rest) == [c] + Concat(rest)
  {
    var ws := [[], [c]] + rest;
    forall i | 0 <= i < |ws| && i % 2 == 1
      ensures IsSeparatorPiece(ws[i])
    {
      if i > 1 {
        assert ws[i] == rest[i - 2];
      }
    }
    forall i | 0 <= i < |ws| && i % 2 == 0
      ensures NoSeparators(ws[i])
    {
      if i > 0 {
        assert ws[i] == rest[i - 2];
      }
    }
    ConcatCons([], [[c]] + rest);
    ConcatCons([c], rest);
    assert ws[1..] == [[c]] + rest;
  }

  lemma LetterFirst(c: char, rest: seq<string>)
    requires !IsSeparator(c) && Alternates(rest)
    ensures Alternates([[c] + rest[0]] + rest[1..])
  {
    var ws := [[c] + rest[0]] + rest[1..];
    forall i | 0 <= i < |ws| && i % 2 == 1
      ensures IsSeparatorPiece(ws[i])
    {
      assert ws[i] == rest[i];
    }
    forall i | 0 <= i < |ws| && i % 2 == 0
      ensures NoSeparators(ws[i])
    {
      if i == 0 {
        NoSeparatorsCons(c, rest[0]);
      } else {
        assert ws[i] == rest[i];
      }
    }
  }

  lemma NoSeparatorsCons(c: char, w: string)
    requires !IsSeparator(c) && NoSeparators(w)
    ensures NoSeparators([c] + w)
  {
    assert forall k :: 0 < k < |[c] + w| ==> ([c] + w)[k] == w[k - 1];
  }

  lemma LetterConcat(c: char, head: string, tail: seq<string>)
    ensures Concat([[c] + head] + tail) == [c] + Concat([head] + tail)
  {
    ConcatCons([c] + head, tail);
    ConcatCons(head, tail);
    assert ([c] + head) + Concat(tail) == [c] + (head + Concat(tail));
  }

  lemma ConcatCons(w: string, ws: seq<string>)
    ensures Concat([w] + ws) == w + Concat(ws)
  {
    assert ([w] + ws)[1..] == ws;
  }

  /** Every piece is a single separator or a run without separators. */
  lemma PieceKind(ws: seq<string>, w: nat)
    requires Alternates(ws) && w < |ws|
    ensures IsSeparatorPiece(ws[w]) || NoSeparators(ws[w])
  {
  }

  /** `renderSlots`: walks the pieces of the trimmed name, adding one
      separator box per separator piece and one letter box per character of
      every other non-empty piece, counting positions as it goes. */
  method RenderSlots(name: string) returns (slots: seq<Slot>)
    ensures slots == Layout(Trim(name))
  {
    var cleanName := Trim(name);
    var words := Pieces(cleanName);
    PiecesShape(cleanName);
    var globalCharIndex := 0;
    slots := [];
    var w := 0;
    assert words[w..] == words && cleanName[globalCharIndex..] == cleanName;
    while w < |words|
      invariant 0 <= w <= |words|
      invariant globalCharIndex == |slots| <= |cleanName|
      invariant Concat(words[w..]) == cleanName[globalCharIndex..]
      invariant slots == Layout(cleanName)[..globalCharIndex]
    {
      PieceAt(cleanName, words, w, globalCharIndex);
      PieceKind(words, w);
      slots, globalCharIndex := PieceSlots(cleanName, slots, words[w], globalCharIndex);
      w := w + 1;
    }
    assert Layout(cleanName)[..globalCharIndex] == Layout(cleanName);
  }

  /** One step of the walk of `renderSlots`: nothing for an empty piece,
      one separator box for a separator, and for a word one letter box per
      character, each numbered with its position in the trimmed name. */
  method PieceSlots(cleanName: string, slots: seq<Slot>, wordOrSep: string, start: nat)
    returns (slots': seq<Slot>, globalCharIndex: nat)
    requires start + |wordOrSep| <= |cleanName|
    requires IsSeparatorPiece(wordOrSep) || NoSeparators(wordOrSep)
    requires forall k :: 0 <= k < |wordOrSep| ==> cleanName[start + k] == wordOrSep[k]
    requires slots == Layout(cleanName)[..start]
    ensures globalCharIndex == start + |wordOrSep|
    ensures slots' == Layout(cleanName)[..globalCharIndex]
  {
    slots', globalCharIndex := slots, start;
    if wordOrSep == [] {
      return;
    }
    if wordOrSep == " " || wordOrSep == "-" {
      LayoutStep(cleanName, globalCharIndex);
      slots' := slots' + [SeparatorSlot(wordOrSep[0])];
      globalCharIndex := globalCharIndex + 1;
    } else {
      assert !IsSeparatorPiece(wordOrSep);
      var i := 0;
      while i < |wordOrSep|
        invariant 0 <= i <= |wordOrSep|
        invariant globalCharIndex == start + i
        invariant slots' == Layout(cleanName)[..globalCharIndex]
      {
        LayoutStep(cleanName, globalCharIndex);
        assert cleanName[globalCharIndex] == wordOrSep[i];
        slots' := slots' + [LetterSlot(globalCharIndex)];
        globalCharIndex := globalCharIndex + 1;
        i := i + 1;
      }
    }
  }

  lemma LayoutStep(name: string, k: nat)
    requires k < |name|
    ensures Layout(name)[..k + 1] == Layout(name)[..k] + [SlotFor(name, k)]
  {
  }

  /** Where piece `w` sits in the string the pieces were cut from. */
  lemma PieceAt(s: string, words: seq<string>, w: nat, start: nat)
    requires w < |words| && start <= |s|
    requires Concat(words[w..]) == s[start..]
    ensures start + |words[w]| <= |s|
    ensures forall k :: 0 <= k < |words[w]| ==> s[start + k] == words[w][k]
    ensures Concat(words[w + 1..]) == s[start + |words[w]|..]
  {
    assert words[w..][1..] == words[w + 1..];
    var rest := Concat(words[w + 1..]);
    assert s[start..] == words[w] + rest;
    forall k | 0 <= k < |words[w]| ensures s[start + k] == words[w][k] {
      assert s[start..][k] == words[w][k];
    }
    assert s[start..][|words[w]|..] == rest;
  }

  /** The positions of the letter boxes, left to right; the source reaches
      them with the selector `.letter-slot:not(.space)`. */
  function LetterIndices(slots: seq<Slot>): seq<nat>
  {
    if slots == [] then []
    else
      var last := slots[|slots| - 1];
      LetterIndices(slots[..|slots| - 1]) + (if last.LetterSlot? then [last.index] else [])
  }

  /** The letter boxes of a name, read left to right, stand exactly for the
      name's letters with spaces and hyphens removed: there are as many of
      them as letters, and the j-th box sits on the j-th letter. */
  lemma {:induction false} LayoutSpellsLetters(name: string)
    ensures |LetterIndices(Layout(name))| == |StripSeparators(name)|
    ensures forall j :: 0 <= j < |LetterIndices(Layout(name))| ==>
              LetterIndices(Layout(name))[j] < |name|
    ensures forall j :: 0 <= j < |LetterIndices(Layout(name))| ==>
              name[LetterIndices(Layout(name))[j]] == StripSeparators(name)[j]
  {
    if name != [] {
      var n := |name|;
      var p, c := name[..n - 1], name[n - 1];
      assert name == p + [c];
      LayoutSpellsLetters(p);
      assert Layout(name)[..n - 1] == Layout(p);
      StripAppend(p, [c]);
      assert StripSeparators([c]) == if IsSeparator(c) then [] else [c];
    }
  }

  /** How many letter boxes show something. */
  function FilledCount(cells: seq<Cell>): nat
  {
    if cells == [] then 0 else (if cells[0].Filled? then 1 else 0) + FilledCount(cells[1..])
  }

  /** The shape the board always keeps: the filled letter boxes are the
      leading ones. */
  predicate FilledPrefix(cells: seq<Cell>)
  {
    forall i, j :: 0 <= i < j < |cells| && cells[j].Filled? ==> cells[i].Filled?
  }

  /** The board after an input event: box `i` shows the i-th typed letter, or
      nothing when fewer letters were typed. */
  function Board(typed: string, n: nat): seq<Cell>
  {
    seq(n, i requires 0 <= i < n => if i < |typed| then Filled(typed[i]) else Empty)
  }

  /** An input event fills exactly as many boxes as letters were typed, at
      most all of them, and leaves the filled ones leading. */
  lemma {:induction false} BoardFilled(typed: string, n: nat)
    ensures FilledCount(Board(typed, n)) == if |typed| < n then |typed| else n
    ensures FilledPrefix(Board(typed, n))
  {
    if n > 0 {
      var rest := if typed == [] then [] else typed[1..];
      assert Board(typed, n)[1..] == Board(rest, n - 1);
      BoardFilled(rest, n - 1);
    }
  }

  /** The board after `letters` are written into the leading boxes, one per
      box, while the boxes past the last letter keep what they showed. */
  function Revealed(cells: seq<Cell>, letters: string): seq<Cell>
  {
    seq(|cells|, i requires 0 <= i < |cells| => if i < |letters| then Filled(letters[i]) else cells[i])
  }

  /** Writing letters into the leading boxes keeps the filled boxes leading,
      and when there are letters for every box the board shows exactly them. */
  lemma RevealedShape(cells: seq<Cell>, letters: string)
    requires FilledPrefix(cells)
    ensures |Revealed(cells, letters)| == |cells|
    ensures FilledPrefix(Revealed(cells, letters))
    ensures |letters| >= |cells| ==> Revealed(cells, letters) == Board(letters, |cells|)
  {
  }

  /** For a name whose only white space is the plain space, there is one
      letter box per letter of the target: the boxes and the target count the
      same letters although one is taken from the trimmed name and the other
      from the untrimmed one. */
  lemma BoxesForName(name: string)
    requires forall c :: c in name && IsTrimmable(c) ==> c == ' '
    ensures |LetterIndices(Layout(Trim(name)))| == |StripSeparators(name)|
  {
    LayoutSpellsLetters(Trim(name));
    TrimKeepsLetters(name);
  }

  /** The letters an input event contributes: the field's value without
      spaces or hyphens, cut to the number of target letters. The result is
      the longest start of the stripped value that fits. */
  function TypedLetters(raw: string, targetLength: nat): (typed: string)
    ensures |typed| == if |StripSeparators(raw)| < targetLength then |StripSeparators(raw)| else targetLength
    ensures typed <= StripSeparators(raw)
    ensures NoSeparators(typed)
  {
    var letters := StripSeparators(raw);
    if |letters| > targetLength then letters[..targetLength] else letters
  }

  /** The event is judged: the typed letters reach the length of the target. */
  predicate Judged(raw: string, answer: string)
  {
    var target := StripSeparators(answer);
    |TypedLetters(raw, |target|)| == |target|
  }

  /** The judged letters equal the target letters. */
  predicate Solves(raw: string, answer: string)
  {
    var target := StripSeparators(answer);
    Judged(raw, answer) && TypedLetters(raw, |target|) == target
  }

  /** An answer is judged exactly when the field holds at least as many
      letters as the name, and it is right exactly when the field's letters
      begin with the name's letters: spaces and hyphens are ignored on both
      sides and anything typed past the last box is dropped. */
  lemma Verdict(raw: string, answer: string)
    ensures Judged(raw, answer) <==> |StripSeparators(raw)| >= |StripSeparators(answer)|
    ensures Solves(raw, answer) <==> StripSeparators(answer) <= StripSeparators(raw)
  {
  }
}
