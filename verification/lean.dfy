/** Lean inference: which of the two options the 24-hour gut-check answer
    leans toward. Explicit phrases ("option a", a leading "a", ...) decide
    first, A before B; otherwise the first word of each option label is
    looked up in the answer, and a lean is reported only when exactly one
    side is mentioned. */
module Lean {
  import opened Text

  /** The source returns "A", "B" or null; null is `Undecided` here. */
  datatype Lean = A | B | Undecided

  /** `toLowerCase().trim()`. */
  function Normalize(s: string): string {
    Trim(Lower(s))
  }

  /** The explicit pattern for Option A: contains "option a", starts with
      "a " or is exactly "a". */
  predicate PicksA(t: string) {
    Contains(t, "option a") || StartsWith(t, "a ") || t == "a"
  }

  predicate PicksB(t: string) {
    Contains(t, "option b") || StartsWith(t, "b ") || t == "b"
  }

  /** The key of an option label: its first space-delimited word, lower-cased. */
  function Key(option: string): string {
    FirstToken(Normalize(option))
  }

  /** `aKey && t.includes(aKey)`: an empty key mentions nothing. */
  predicate Mentions(t: string, key: string) {
    key != [] && Contains(t, key)
  }

  /** `inferLean`, on the normalized text and the two keys. */
  function Decide(t: string, keyA: string, keyB: string): Lean {
    if PicksA(t) then A
    else if PicksB(t) then B
    else
      var mentionsA := Mentions(t, keyA);
      var mentionsB := Mentions(t, keyB);
      if mentionsA && !mentionsB then A
      else if mentionsB && !mentionsA then B
      else Undecided
  }

  /** `inferLean`. */
  function InferLean(q24Text: string, optionA: string, optionB: string): Lean {
    Decide(Normalize(q24Text), Key(optionA), Key(optionB))
  }

  function Flip(l: Lean): Lean {
    match l
    case A => B
    case B => A
    case Undecided => Undecided
  }

  // ---------------------------------------------------------------------
  // What the classifier decides

  /** The explicit patterns are checked first, and A's before B's: a text
      naming both options explicitly leans to A. */
  lemma ExplicitPatternsFirst(q24Text: string, optionA: string, optionB: string)
    ensures PicksA(Normalize(q24Text)) ==> InferLean(q24Text, optionA, optionB) == A
    ensures !PicksA(Normalize(q24Text)) && PicksB(Normalize(q24Text)) ==>
              InferLean(q24Text, optionA, optionB) == B
  {
  }

  /** Without an explicit pattern the answer leans to a side exactly when
      that side's key, and not the other's, occurs in the text; both, neither
      or an empty key leaves it undecided. */
  lemma KeyFallback(q24Text: string, optionA: string, optionB: string)
    requires !PicksA(Normalize(q24Text)) && !PicksB(Normalize(q24Text))
    ensures var t, ka, kb := Normalize(q24Text), Key(optionA), Key(optionB);
      var lean := InferLean(q24Text, optionA, optionB);
      && (lean == A <==> Mentions(t, ka) && !Mentions(t, kb))
      && (lean == B <==> Mentions(t, kb) && !Mentions(t, ka))
      && (lean == Undecided <==> Mentions(t, ka) == Mentions(t, kb))
  {
  }

  /** Every lean rests on evidence in the text: an explicit pattern or an
      occurrence of that side's key. */
  lemma LeanHasEvidence(q24Text: string, optionA: string, optionB: string)
    ensures var t := Normalize(q24Text);
      InferLean(q24Text, optionA, optionB) == A ==>
        PicksA(t) || (Key(optionA) != [] && exists i :: OccursAt(t, Key(optionA), i))
    ensures var t := Normalize(q24Text);
      InferLean(q24Text, optionA, optionB) == B ==>
        PicksB(t) || (Key(optionB) != [] && exists i :: OccursAt(t, Key(optionB), i))
  {
    ContainsIffOccurs(Normalize(q24Text), Key(optionA));
    ContainsIffOccurs(Normalize(q24Text), Key(optionB));
  }

  /** The key fallback treats the two options alike: swapping the labels
      flips the lean when no explicit pattern is present. */
  lemma KeyFallbackSymmetric(q24Text: string, optionA: string, optionB: string)
    requires !PicksA(Normalize(q24Text)) && !PicksB(Normalize(q24Text))
    ensures InferLean(q24Text, optionB, optionA) == Flip(InferLean(q24Text, optionA, optionB))
  {
  }

  /** Two labels with the same first word can only be told apart by an
      explicit pattern. */
  lemma SameKeyUndecided(q24Text: string, optionA: string, optionB: string)
    requires !PicksA(Normalize(q24Text)) && !PicksB(Normalize(q24Text))
    requires Key(optionA) == Key(optionB)
    ensures InferLean(q24Text, optionA, optionB) == Undecided
  {
  }

  /** Inference ignores ASCII case in all three inputs. */
  lemma InferLeanIgnoresCase(q24Text: string, optionA: string, optionB: string)
    ensures InferLean(Lower(q24Text), Lower(optionA), Lower(optionB))
         == InferLean(q24Text, optionA, optionB)
  {
    LowerIdempotent(q24Text);
    LowerIdempotent(optionA);
    LowerIdempotent(optionB);
  }

  // ---------------------------------------------------------------------
  // Worked examples

  /** A pattern is absent from a text missing one of its characters. */
  lemma AbsentChar(t: string, p: string, c: char)
    requires c in p && c !in t
    ensures !Contains(t, p)
  {
    ContainsIffOccurs(t, p);
  }

  // Each fact about a literal text below has a lemma of its own, so that the
  // verifier evaluates one literal at a time.

  lemma LowerGo() ensures Lower("Go") == "go" {}
  lemma TrimGo() ensures Trim("go") == "go" {}
  lemma FirstTokenGo() ensures FirstToken("go") == "go" {}
  lemma LowerStay() ensures Lower("Stay") == "stay" {}
  lemma TrimStay() ensures Trim("stay") == "stay" {}
  lemma FirstTokenStay() ensures FirstToken("stay") == "stay" {}

  /** The keys of the labels "Go" and "Stay" are "go" and "stay". */
  lemma GoStayKeys()
    ensures Key("Go") == "go" && Key("Stay") == "stay"
  {
    LowerGo();
    TrimGo();
    FirstTokenGo();
    LowerStay();
    TrimStay();
    FirstTokenStay();
  }

  lemma LowerOptionA() ensures Lower("Option A") == "option a" {}
  lemma TrimOptionA() ensures Trim("option a") == "option a" {}

  lemma PicksOptionA()
    ensures PicksA("option a")
  {
    assert OccursAt("option a", "option a", 0);
    ContainsIffOccurs("option a", "option a");
  }

  /** inferLean("Option A", "Go", "Stay") is A. */
  lemma ExampleOptionA()
    ensures InferLean("Option A", "Go", "Stay") == A
  {
    LowerOptionA();
    TrimOptionA();
    PicksOptionA();
  }

  lemma LowerB() ensures Lower("b") == "b" {}
  lemma TrimB() ensures Trim("b") == "b" {}
  lemma PicksOnlyB() ensures !PicksA("b") && PicksB("b") {}

  /** inferLean("b", "Go", "Stay") is B. */
  lemma ExampleB()
    ensures InferLean("b", "Go", "Stay") == B
  {
    LowerB();
    TrimB();
    PicksOnlyB();
  }

  // "I'll go with stay" with the labels "Go" and "Stay".

  lemma LowerBoth() ensures Lower("I'll go with stay") == "i'll go with stay" {}
  lemma TrimStartBoth() ensures TrimStart("i'll go with stay") == "i'll go with stay" {}
  lemma TrimEndBoth() ensures TrimEnd("i'll go with stay") == "i'll go with stay" {}
  lemma NormalizeBoth() ensures Normalize("I'll go with stay") == "i'll go with stay" { LowerBoth(); TrimStartBoth(); TrimEndBoth(); }

  lemma BothLacksOptionA()
    ensures !Contains("i'll go with stay", "option a")
  {
    AbsentChar("i'll go with stay", "option a", 'p');
  }

  lemma BothLacksOptionB()
    ensures !Contains("i'll go with stay", "option b")
  {
    AbsentChar("i'll go with stay", "option b", 'p');
  }

  lemma BothMentionsGo()
    ensures Contains("i'll go with stay", "go")
  {
    assert OccursAt("i'll go with stay", "go", 5);
    ContainsIffOccurs("i'll go with stay", "go");
  }

  lemma BothMentionsStay()
    ensures Contains("i'll go with stay", "stay")
  {
    assert OccursAt("i'll go with stay", "stay", 13);
    ContainsIffOccurs("i'll go with stay", "stay");
  }
  lemma BothNoStartA() ensures !StartsWith("i'll go with stay", "a ") { assert "i'll go with stay"[0] == 'i'; }
  lemma BothNoStartB() ensures !StartsWith("i'll go with stay", "b ") { assert "i'll go with stay"[0] == 'i'; }
  lemma BothNoPickA() ensures !PicksA("i'll go with stay") { BothLacksOptionA(); BothNoStartA(); }
  lemma BothNoPickB() ensures !PicksB("i'll go with stay") { BothLacksOptionB(); BothNoStartB(); }
  lemma BothNoPick() ensures !PicksA("i'll go with stay") && !PicksB("i'll go with stay") { BothNoPickA(); BothNoPickB(); }
  lemma BothMentions() ensures Mentions("i'll go with stay", "go") && Mentions("i'll go with stay", "stay") { BothMentionsGo(); BothMentionsStay(); }
  lemma DecideBoth() ensures Decide("i'll go with stay", "go", "stay") == Undecided { BothNoPick(); BothMentions(); }

  /** inferLean("I'll go with stay", "Go", "Stay") is undecided: "go"
      occurs in "go with" and "stay" occurs too, so both sides are
      mentioned. */
  lemma ExampleBothMentioned()
    ensures InferLean("I'll go with stay", "Go", "Stay") == Undecided
  {
    NormalizeBoth();
    GoStayKeys();
    DecideBoth();
  }

  // "not sure yet" with the labels "Go" and "Stay".

  lemma LowerNeither() ensures Lower("not sure yet") == "not sure yet" {}
  lemma TrimStartNeither() ensures TrimStart("not sure yet") == "not sure yet" {}
  lemma TrimEndNeither() ensures TrimEnd("not sure yet") == "not sure yet" {}
  lemma NormalizeNeither() ensures Normalize("not sure yet") == "not sure yet" { LowerNeither(); TrimStartNeither(); TrimEndNeither(); }

  lemma NeitherLacksOptionA() ensures !Contains("not sure yet", "option a") { AbsentChar("not sure yet", "option a", 'p'); }
  lemma NeitherLacksOptionB() ensures !Contains("not sure yet", "option b") { AbsentChar("not sure yet", "option b", 'p'); }
  lemma NeitherNoStartA() ensures !StartsWith("not sure yet", "a ") { assert "not sure yet"[0] == 'n'; }
  lemma NeitherNoStartB() ensures !StartsWith("not sure yet", "b ") { assert "not sure yet"[0] == 'n'; }
  lemma NeitherNoPickA() ensures !PicksA("not sure yet") { NeitherLacksOptionA(); NeitherNoStartA(); }
  lemma NeitherNoPickB() ensures !PicksB("not sure yet") { NeitherLacksOptionB(); NeitherNoStartB(); }
  lemma NeitherLacksGo() ensures !Contains("not sure yet", "go") { AbsentChar("not sure yet", "go", 'g'); }
  lemma NeitherLacksStay() ensures !Contains("not sure yet", "stay") { AbsentChar("not sure yet", "stay", 'a'); }
  lemma DecideNeither() ensures Decide("not sure yet", "go", "stay") == Undecided
  {
    NeitherNoPickA();
    NeitherNoPickB();
    NeitherLacksGo();
    NeitherLacksStay();
  }

  /** inferLean("not sure yet", "Go", "Stay") is undecided: neither label is mentioned. */
  lemma ExampleNeither()
    ensures InferLean("not sure yet", "Go", "Stay") == Undecided
  {
    NormalizeNeither();
    GoStayKeys();
    DecideNeither();
  }

  // "option a or maybe option b", whatever the labels.

  lemma LowerTieBreak() ensures Lower("option a or maybe option b") == "option a or maybe option b" {}
  lemma TrimStartTieBreak() ensures TrimStart("option a or maybe option b") == "option a or maybe option b" {}
  lemma TrimEndTieBreak() ensures TrimEnd("option a or maybe option b") == "option a or maybe option b" {}
  lemma NormalizeTieBreak() ensures Normalize("option a or maybe option b") == "option a or maybe option b"
  {
    LowerTieBreak();
    TrimStartTieBreak();
    TrimEndTieBreak();
  }

  lemma TieBreakPicksA()
    ensures PicksA("option a or maybe option b")
  {
    assert OccursAt("option a or maybe option b", "option a", 0);
    ContainsIffOccurs("option a or maybe option b", "option a");
  }

  /** The tie-break: a text naming both options explicitly leans to A,
      whatever the labels. */
  lemma ExampleTieBreak(optionA: string, optionB: string)
    ensures InferLean("option a or maybe option b", optionA, optionB) == A
  {
    NormalizeTieBreak();
    TieBreakPicksA();
  }
}
