/**
 * The hero subtitle's typing effect. The script keeps the index of the current
 * phrase, the number of characters shown and a typing/deleting flag; every call of
 * `typeEffect` shows one character more (typing) or one fewer (deleting), switches
 * mode at either end of the phrase, moves cyclically to the next phrase after a full
 * deletion, and schedules itself again. Here the delay handed to `setTimeout` is the
 * value a step returns.
 */
module Typing {
  import opened JsText

  /** The delays, in milliseconds, that `typeEffect` schedules itself with. */
  const TypeSpeed: nat := 100
  const DeleteSpeed: nat := 50
  const PauseTime: nat := 2000
  const NextPhraseDelay: nat := 500
  /** The delay before the very first step. */
  const StartDelay: nat := 1000

  /** The phrases the page cycles through. */
  const Phrases: seq<string> := ["Full Stack Developer", "Ingeniero de Software"]

  /** The effect's state: `phraseIndex`, `charIndex`, `isDeleting` and the subtitle's text. */
  datatype Typer = Typer(phraseIndex: int, charIndex: int, deleting: bool, text: string)

  /** The state after some steps together with the delay (or the sum of delays) they schedule. */
  datatype Tick = Tick(next: Typer, delay: nat)

  /** Every phrase has at least one character. */
  predicate PhrasesNonEmpty(phrases: seq<string>) {
    |phrases| > 0 && forall i :: 0 <= i < |phrases| ==> |phrases[i]| > 0
  }

  /** The current phrase index is a valid index: what `phrases[phraseIndex]` needs. */
  predicate InRange(phrases: seq<string>, s: Typer) {
    0 <= s.phraseIndex < |phrases|
  }

  /**
   * The states the effect can be in between two steps: while typing, fewer characters
   * than the phrase has are shown; while deleting, at least one and at most all.
   */
  predicate Consistent(phrases: seq<string>, s: Typer) {
    && PhrasesNonEmpty(phrases) && InRange(phrases, s)
    && var len := |phrases[s.phraseIndex]|;
       if s.deleting then 0 < s.charIndex <= len else 0 <= s.charIndex < len
  }

  /** The subtitle shows exactly the first `charIndex` characters of the current phrase. */
  predicate Shown(phrases: seq<string>, s: Typer)
    requires InRange(phrases, s)
  {
    0 <= s.charIndex <= |phrases[s.phraseIndex]| && s.text == phrases[s.phraseIndex][..s.charIndex]
  }

  /**
   * One call of `typeEffect`. The phrase index stays valid; from a consistent state
   * the next state is consistent again and the subtitle shows the right prefix.
   */
  function Step(phrases: seq<string>, s: Typer): (r: Tick)
    requires InRange(phrases, s)
    ensures InRange(phrases, r.next)
    ensures Consistent(phrases, s) ==> Consistent(phrases, r.next) && Shown(phrases, r.next)
  {
    var phrase := phrases[s.phraseIndex];
    var c := if s.deleting then s.charIndex - 1 else s.charIndex + 1;
    var text := Substring0(phrase, c);
    if !s.deleting && c == |phrase| then
      Tick(Typer(s.phraseIndex, c, true, text), PauseTime)
    else if s.deleting && c == 0 then
      Tick(Typer((s.phraseIndex + 1) % |phrases|, c, false, text), NextPhraseDelay)
    else
      Tick(s.(charIndex := c, text := text), if s.deleting then DeleteSpeed else TypeSpeed)
  }

  /** `k` consecutive steps from `s`; the delay is the total time they schedule. */
  function Run(phrases: seq<string>, s: Typer, k: nat): (r: Tick)
    requires InRange(phrases, s)
    ensures InRange(phrases, r.next)
    ensures Consistent(phrases, s) ==> Consistent(phrases, r.next)
    ensures Consistent(phrases, s) && k > 0 ==> Shown(phrases, r.next)
    decreases k
  {
    if k == 0 then Tick(s, 0)
    else
      var first := Step(phrases, s);
      var rest := Run(phrases, first.next, k - 1);
      Tick(rest.next, first.delay + rest.delay)
  }

  /** The start state: nothing typed yet, showing whatever the page's markup holds. */
  function Start(markupText: string): Typer {
    Typer(0, 0, false, markupText)
  }

  /** The start state is consistent whenever every phrase is non-empty. */
  lemma StartConsistent(phrases: seq<string>, markupText: string)
    requires PhrasesNonEmpty(phrases)
    ensures Consistent(phrases, Start(markupText))
  {
  }

  /** The page's own phrases are both non-empty. */
  lemma PagePhrasesNonEmpty()
    ensures PhrasesNonEmpty(Phrases)
  {
  }

  /** Running `a` steps and then `b` steps is running `a + b` steps. */
  lemma {:induction false} RunAdd(phrases: seq<string>, s: Typer, a: nat, b: nat)
    requires InRange(phrases, s)
    ensures var first := Run(phrases, s, a);
            var second := Run(phrases, first.next, b);
            Run(phrases, s, a + b) == Tick(second.next, first.delay + second.delay)
    decreases a
  {
    if a > 0 {
      RunAdd(phrases, Step(phrases, s).next, a - 1, b);
    }
  }

  /**
   * Typing from a consistent state runs until the whole phrase is shown, then
   * switches to deleting: every step waits TypeSpeed except the last, which waits PauseTime.
   */
  lemma {:induction false} TypingFinishes(phrases: seq<string>, s: Typer)
    requires Consistent(phrases, s) && !s.deleting
    ensures var phrase := phrases[s.phraseIndex];
            var k := |phrase| - s.charIndex;
            Run(phrases, s, k) == Tick(Typer(s.phraseIndex, |phrase|, true, phrase), (k - 1) * TypeSpeed + PauseTime)
    decreases |phrases[s.phraseIndex]| - s.charIndex
  {
    var phrase := phrases[s.phraseIndex];
    var k := |phrase| - s.charIndex;
    var first := Step(phrases, s);
    if k > 1 {
      TypingFinishes(phrases, first.next);
    }
    assert phrase[..|phrase|] == phrase;
  }

  /**
   * Deleting from a consistent state runs until nothing is shown, then moves to the
   * next phrase cyclically and switches to typing: every step waits DeleteSpeed except
   * the last, which waits NextPhraseDelay.
   */
  lemma {:induction false} DeletingFinishes(phrases: seq<string>, s: Typer)
    requires Consistent(phrases, s) && s.deleting
    ensures Run(phrases, s, s.charIndex)
         == Tick(Typer((s.phraseIndex + 1) % |phrases|, 0, false, ""), (s.charIndex - 1) * DeleteSpeed + NextPhraseDelay)
    decreases s.charIndex
  {
    var first := Step(phrases, s);
    if s.charIndex > 1 {
      DeletingFinishes(phrases, first.next);
    }
  }

  /**
   * A whole phrase cycle: from the start of phrase `i`, after typing and deleting it
   * (twice its length in steps) the effect is at the start of phrase `(i + 1) % n`,
   * having waited (len - 1) * (TypeSpeed + DeleteSpeed) + PauseTime + NextPhraseDelay.
   */
  lemma PhraseCycle(phrases: seq<string>, i: int, text: string)
    requires PhrasesNonEmpty(phrases) && 0 <= i < |phrases|
    ensures Run(phrases, Typer(i, 0, false, text), 2 * |phrases[i]|)
         == Tick(Typer((i + 1) % |phrases|, 0, false, ""),
                 (|phrases[i]| - 1) * (TypeSpeed + DeleteSpeed) + PauseTime + NextPhraseDelay)
  {
    var len := |phrases[i]|;
    var s := Typer(i, 0, false, text);
    TypingFinishes(phrases, s);
    var typed := Run(phrases, s, len);
    DeletingFinishes(phrases, typed.next);
    RunAdd(phrases, s, len, len);
  }

  /**
   * On the page itself: after typing and deleting both phrases (20 and 21 characters)
   * the effect is back at the start of the first one, 10850 ms after its first call,
   * which is itself StartDelay after the page loads: 11850 ms in all.
   */
  lemma PagePhrasesCycle(markupText: string)
    ensures |Phrases[0]| == 20 && |Phrases[1]| == 21
    ensures Run(Phrases, Start(markupText), 2 * |Phrases[0]| + 2 * |Phrases[1]|) == Tick(Start(""), 10850)
    ensures StartDelay + Run(Phrases, Start(markupText), 2 * |Phrases[0]| + 2 * |Phrases[1]|).delay == 11850
  {
    var a, b := 2 * |Phrases[0]|, 2 * |Phrases[1]|;
    PhraseCycle(Phrases, 0, markupText);
    PhraseCycle(Phrases, 1, "");
    RunAdd(Phrases, Start(markupText), a, b);
  }

  /**
   * With an empty phrase the effect never switches to deleting: the character count
   * grows by one per step while the subtitle stays empty.
   */
  lemma {:induction false} EmptyPhraseNeverDeletes(phrases: seq<string>, s: Typer, k: nat)
    requires InRange(phrases, s) && phrases[s.phraseIndex] == "" && !s.deleting && s.charIndex >= 0
    ensures Run(phrases, s, k).next == (if k == 0 then s else s.(charIndex := s.charIndex + k, text := ""))
    ensures Run(phrases, s, k).delay == k * TypeSpeed
    decreases k
  {
    if k > 0 {
      EmptyPhraseNeverDeletes(phrases, Step(phrases, s).next, k - 1);
    }
  }

  /** The subtitle element and the effect's module-level variables. */
  class Typewriter {
    const phrases: seq<string>
    var phraseIndex: int
    var charIndex: int
    var isDeleting: bool
    var text: string

    /** The phrase list is non-empty and the index points into it. */
    ghost predicate Valid()
      reads this
    {
      |phrases| > 0 && 0 <= phraseIndex < |phrases|
    }

    /** The abstract state of the object. */
    function State(): Typer
      reads this
    {
      Typer(phraseIndex, charIndex, isDeleting, text)
    }

    /** The page load: the module-level variables start at their declared values. */
    constructor (phrases: seq<string>, markupText: string)
      requires |phrases| > 0
      ensures Valid() && this.phrases == phrases
      ensures State() == Start(markupText)
    {
      this.phrases := phrases;
      phraseIndex, charIndex, isDeleting := 0, 0, false;
      text := markupText;
    }

    /**
     * `typeEffect`: show one character more or fewer, switch mode at the ends,
     * return the delay of the next call.
     */
    method TypeEffect() returns (delay: nat)
      requires Valid()
      modifies this
      ensures Valid()
      ensures Tick(State(), delay) == Step(phrases, old(State()))
      // the shown prefix grows or shrinks by exactly one character
      ensures charIndex == if old(isDeleting) then old(charIndex) - 1 else old(charIndex) + 1
      ensures text == Substring0(phrases[old(phraseIndex)], charIndex)
      // typing reaches the end of the phrase: start deleting after a pause
      ensures !old(isDeleting) && charIndex == |phrases[old(phraseIndex)]|
              ==> isDeleting && phraseIndex == old(phraseIndex) && delay == PauseTime
      // deleting reaches the start: next phrase, start typing
      ensures old(isDeleting) && charIndex == 0
              ==> !isDeleting && phraseIndex == (old(phraseIndex) + 1) % |phrases| && delay == NextPhraseDelay
      // otherwise mode and phrase are kept
      ensures !(!old(isDeleting) && charIndex == |phrases[old(phraseIndex)]|) && !(old(isDeleting) && charIndex == 0)
              ==> isDeleting == old(isDeleting) && phraseIndex == old(phraseIndex)
                  && delay == if isDeleting then DeleteSpeed else TypeSpeed
      // between steps the state stays consistent and the subtitle shows the right prefix
      ensures old(Consistent(phrases, State())) ==> Consistent(phrases, State()) && Shown(phrases, State())
    {
      var currentPhrase := phrases[phraseIndex];
      if isDeleting {
        text := Substring0(currentPhrase, charIndex - 1);
        charIndex := charIndex - 1;
      } else {
        text := Substring0(currentPhrase, charIndex + 1);
        charIndex := charIndex + 1;
      }
      if !isDeleting && charIndex == |currentPhrase| {
        isDeleting := true;
        delay := PauseTime;
      } else if isDeleting && charIndex == 0 {
        isDeleting := false;
        phraseIndex := (phraseIndex + 1) % |phrases|;
        delay := NextPhraseDelay;
      } else {
        delay := if isDeleting then DeleteSpeed else TypeSpeed;
      }
    }
  }
}
