/** String helpers of the quiz: the `trim()` applied to a personality's name
    before its slots are laid out, and the `replace(/[ -]/g, '')` that removes
    spaces and hyphens from the answer and from the player's input. */
module Text {

  /** Space and hyphen: the two characters the quiz treats as structure of a
      name rather than letters to be typed. */
  predicate IsSeparator(c: char) {
    c == ' ' || c == '-'
  }

  predicate NoSeparators(s: string) {
    forall i :: 0 <= i < |s| ==> !IsSeparator(s[i])
  }

  /** The characters `String.prototype.trim` removes at either end: the
      ECMAScript WhiteSpace and LineTerminator code points. */
  predicate IsTrimmable(c: char) {
    c == '\t' || c == '\n' || c == '\U{B}' || c == '\U{C}' || c == '\r' ||
    c == ' ' || c == '\U{A0}' || c == '\U{1680}' ||
    ('\U{2000}' <= c <= '\U{200A}') ||
    c == '\U{2028}' || c == '\U{2029}' || c == '\U{202F}' || c == '\U{205F}' ||
    c == '\U{3000}' || c == '\U{FEFF}'
  }

  predicate AllTrimmable(s: string) {
    forall i :: 0 <= i < |s| ==> IsTrimmable(s[i])
  }

  /** How many white-space characters `trim()` cuts from the front of `s`. */
  function LeadingBlank(s: string): (n: nat)
    ensures n <= |s|
  {
    if |s| > 0 && IsTrimmable(s[0]) then 1 + LeadingBlank(s[1..]) else 0
  }

  /** How many white-space characters `trim()` cuts from the back of `s`. */
  function TrailingBlank(s: string): (n: nat)
    ensures n <= |s|
  {
    if |s| > 0 && IsTrimmable(s[|s| - 1]) then 1 + TrailingBlank(s[..|s| - 1]) else 0
  }

  /** What is left of `s` once `lead` characters are cut from the front
      and `trail` from the back (nothing when the two cuts overlap). */
  function Middle(s: string, lead: nat, trail: nat): string
  {
    if lead + trail >= |s| then [] else s[lead..|s| - trail]
  }

  /** `s.trim()`. */
  function Trim(s: string): string
  {
    Middle(s, LeadingBlank(s), TrailingBlank(s))
  }

  lemma {:induction false} LeadingBlankCuts(s: string)
    ensures AllTrimmable(s[..LeadingBlank(s)])
    ensures LeadingBlank(s) < |s| ==> !IsTrimmable(s[LeadingBlank(s)])
  {
    if |s| > 0 && IsTrimmable(s[0]) {
      LeadingBlankCuts(s[1..]);
      assert s[..LeadingBlank(s)] == [s[0]] + s[1..][..LeadingBlank(s[1..])];
    }
  }

  lemma {:induction false} TrailingBlankCuts(s: string)
    ensures AllTrimmable(s[|s| - TrailingBlank(s)..])
    ensures TrailingBlank(s) < |s| ==> !IsTrimmable(s[|s| - TrailingBlank(s) - 1])
  {
    if |s| > 0 && IsTrimmable(s[|s| - 1]) {
      var p := s[..|s| - 1];
      TrailingBlankCuts(p);
      assert s[|s| - TrailingBlank(s)..] == p[|p| - TrailingBlank(p)..] + [s[|s| - 1]];
    }
  }

  /** `trim()` keeps a middle part of `s`; everything it cuts off on either
      side is white space. */
  lemma TrimCuts(s: string)
    ensures LeadingBlank(s) + |Trim(s)| <= |s|
    ensures Trim(s) == s[LeadingBlank(s)..LeadingBlank(s) + |Trim(s)|]
    ensures AllTrimmable(s[..LeadingBlank(s)]) && AllTrimmable(s[LeadingBlank(s) + |Trim(s)|..])
  {
    LeadingBlankCuts(s);
    TrailingBlankCuts(s);
    CutShape(s, LeadingBlank(s), TrailingBlank(s));
  }

  /** The part `trim()` keeps neither starts nor ends with white space, so
      no longer middle part has blank sides. */
  lemma TrimEnds(s: string)
    ensures Trim(s) == [] || (!IsTrimmable(Trim(s)[0]) && !IsTrimmable(Trim(s)[|Trim(s)| - 1]))
  {
    LeadingBlankCuts(s);
    TrailingBlankCuts(s);
    CutShape(s, LeadingBlank(s), TrailingBlank(s));
  }

  /** The middle part left between a blank prefix of length `lead` and a
      blank suffix of length `trail`, each ending at a non-blank character. */
  lemma CutShape(s: string, lead: nat, trail: nat)
    requires lead <= |s| && trail <= |s|
    requires AllTrimmable(s[..lead]) && AllTrimmable(s[|s| - trail..])
    requires lead < |s| ==> !IsTrimmable(s[lead])
    requires trail < |s| ==> !IsTrimmable(s[|s| - trail - 1])
    ensures lead + |Middle(s, lead, trail)| <= |s|
    ensures Middle(s, lead, trail) == s[lead..lead + |Middle(s, lead, trail)|]
    ensures AllTrimmable(s[lead + |Middle(s, lead, trail)|..])
    ensures Middle(s, lead, trail) == [] ||
            (!IsTrimmable(Middle(s, lead, trail)[0]) &&
             !IsTrimmable(Middle(s, lead, trail)[|Middle(s, lead, trail)| - 1]))
  {
    var back := s[|s| - trail..];
    if lead + trail < |s| {
      var r := s[lead..|s| - trail];
      assert r[0] == s[lead] && r[|r| - 1] == s[|s| - trail - 1];
      assert s[lead + |r|..] == back;
    }
  }

  /** `s.replace(/[ -]/g, '')`: the letters of `s`, in order, without the
      spaces and hyphens. */
  function StripSeparators(s: string): (r: string)
    ensures |r| <= |s|
    ensures NoSeparators(r)
  {
    if s == [] then [] else (if IsSeparator(s[0]) then [] else [s[0]]) + StripSeparators(s[1..])
  }

  /** Stripping drops every space and hyphen and keeps every other character
      as often as it occurs. */
  lemma {:induction false} StripKeepsLetters(s: string)
    ensures multiset(StripSeparators(s)) == multiset(s)[' ' := 0]['-' := 0]
  {
    if s != [] {
      assert s == [s[0]] + s[1..];
      StripKeepsLetters(s[1..]);
    }
  }

  /** Stripping commutes with concatenation, so the letters of a name are the
      letters of its pieces, in order. */
  lemma {:induction false} StripAppend(a: string, b: string)
    ensures StripSeparators(a + b) == StripSeparators(a) + StripSeparators(b)
  {
    if a == [] {
      assert a + b == b;
    } else {
      assert (a + b)[1..] == a[1..] + b;
      StripAppend(a[1..], b);
    }
  }

  /** A string without separators is its own letter sequence. */
  lemma {:induction false} StripNoSeparators(s: string)
    requires NoSeparators(s)
    ensures StripSeparators(s) == s
  {
    if s != [] {
      StripNoSeparators(s[1..]);
    }
  }

  lemma {:induction false} StripOnlySpaces(s: string)
    requires forall i :: 0 <= i < |s| ==> s[i] == ' '
    ensures StripSeparators(s) == []
  {
    if s != [] {
      StripOnlySpaces(s[1..]);
    }
  }

  /** When the only white space a name contains is the plain space, trimming
      it first does not change its letters. The slots are laid out from the
      trimmed name, the target letters from the untrimmed one; this is a
      condition under which the two agree (a trailing tab or non-breaking
      space would be a letter of the target with no slot to type it into). */
  lemma TrimKeepsLetters(s: string)
    requires forall c :: c in s && IsTrimmable(c) ==> c == ' '
    ensures StripSeparators(Trim(s)) == StripSeparators(s)
  {
    var r := Trim(s);
    var lo := LeadingBlank(s);
    TrimCuts(s);
    var head, tail := s[..lo], s[lo + |r|..];
    assert s == head + r + tail;
    forall i | 0 <= i < |head| ensures head[i] == ' ' {
      assert IsTrimmable(head[i]) && head[i] == s[i] && s[i] in s;
    }
    forall i | 0 <= i < |tail| ensures tail[i] == ' ' {
      assert IsTrimmable(tail[i]) && tail[i] == s[lo + |r| + i] && s[lo + |r| + i] in s;
    }
    StripPadded(head, r, tail);
  }

  lemma StripPadded(head: string, r: string, tail: string)
    requires forall i :: 0 <= i < |head| ==> head[i] == ' '
    requires forall i :: 0 <= i < |tail| ==> tail[i] == ' '
    ensures StripSeparators(head + r + tail) == StripSeparators(r)
  {
    StripOnlySpaces(head);
    StripOnlySpaces(tail);
    StripAppend(head + r, tail);
    StripAppend(head, r);
  }
}
