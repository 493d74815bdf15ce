/** The text half of `perform_ocr` (vlp/vlp/main2.py:101-106): the raw
    Tesseract reading is corrected for common letter/digit confusions,
    spaces are deleted and surrounding whitespace is trimmed. The engine
    call itself is outside the model; its output is the input here. */
module Ocr {
  import opened Text

  /** The confusion table of the source, one character at a time:
      O -> 0, I -> 1, l -> 1, Z -> 2, S -> 5, B -> 8. */
  function Confusion(c: char): char {
    match c
    case 'O' => '0'
    case 'I' => '1'
    case 'l' => '1'
    case 'Z' => '2'
    case 'S' => '5'
    case 'B' => '8'
    case _ => c
  }

  /** The table sends a space, and only a space, to a space. */
  lemma ConfusionKeepsSpace(c: char)
    ensures Confusion(c) == ' ' <==> c == ' '
  {
    if IsConfusable(c) {
      assert Confusion(c) != ' ';
    }
  }

  /** The six characters the correction rewrites. */
  predicate IsConfusable(c: char) {
    c == 'O' || c == 'I' || c == 'l' || c == 'Z' || c == 'S' || c == 'B'
  }

  /** The chain of `str.replace` calls, applied in the order of the source.
      It keeps the length and sends each character through the confusion
      table. */
  function ReplaceChain(text: string): (r: string)
    ensures |r| == |text|
    ensures forall i :: 0 <= i < |text| ==> r[i] == Confusion(text[i])
  {
    var t1 := ReplaceChar(text, 'O', '0');
    var t2 := ReplaceChar(t1, 'I', '1');
    var t3 := ReplaceChar(t2, 'l', '1');
    var t4 := ReplaceChar(t3, 'Z', '2');
    var t5 := ReplaceChar(t4, 'S', '5');
    ReplaceChar(t5, 'B', '8')
  }

  /** The post-processing of `perform_ocr`: replacement chain, then
      `replace(' ', '')`, then `strip()`. The result holds no confusable
      letter, no space and no surrounding whitespace. */
  function CorrectReading(raw: string): (text: string)
    ensures forall i :: 0 <= i < |text| ==> !IsConfusable(text[i]) && text[i] != ' '
    ensures |text| > 0 ==> !IsSpace(text[0]) && !IsSpace(text[|text| - 1])
  {
    var spaceless := RemoveChar(ReplaceChain(raw), ' ');
    ChainThenRemoveIsSinglePass(raw);
    CorrectCharsClean(raw);
    StripKeepsClean(spaceless);
    Strip(spaceless)
  }

  /** No confusable letter and no space. */
  predicate Clean(s: string) {
    forall i :: 0 <= i < |s| ==> !IsConfusable(s[i]) && s[i] != ' '
  }

  /** `strip()` returns a slice, so a clean string stays clean. */
  lemma StripKeepsClean(s: string)
    requires Clean(s)
    ensures Clean(Strip(s))
  {
    var r, lo := Strip(s), StripStart(s);
    forall i | 0 <= i < |r| ensures !IsConfusable(r[i]) && r[i] != ' ' {
      assert r[i] == s[lo + i];
    }
  }

  /** Reference definition: one left-to-right pass that drops each space
      and sends every other character through the confusion table. */
  function CorrectChars(raw: string): string {
    if |raw| == 0 then []
    else (if raw[0] == ' ' then [] else [Confusion(raw[0])]) + CorrectChars(raw[1..])
  }

  /** The single pass leaves no confusable letter and no space behind. */
  lemma {:induction false} CorrectCharsClean(raw: string)
    ensures Clean(CorrectChars(raw))
  {
    if |raw| > 0 {
      CorrectCharsClean(raw[1..]);
    }
  }

  /** Sending each character through the confusion table. */
  function MapConfusion(s: string): string {
    seq(|s|, i requires 0 <= i < |s| => Confusion(s[i]))
  }

  /** No replacement character is itself replaced later in the chain, so
      the sequence of six `replace` calls is one per-character map. */
  lemma ReplaceChainIsPerCharMap(text: string)
    ensures ReplaceChain(text) == MapConfusion(text)
  {
    var r := ReplaceChain(text);
    forall i | 0 <= i < |text|
      ensures r[i] == Confusion(text[i])
    {
    }
  }

  /** Deleting spaces after the per-character map is the single pass
      `CorrectChars`: every surviving character stays in place relative
      to the others. */
  lemma {:induction false} RemoveSpacesAfterMap(raw: string)
    ensures RemoveChar(MapConfusion(raw), ' ') == CorrectChars(raw)
  {
    if |raw| > 0 {
      var head, tail := [Confusion(raw[0])], MapConfusion(raw[1..]);
      assert MapConfusion(raw) == head + tail;
      RemoveCharAppend(head, tail, ' ');
      assert RemoveChar(head, ' ') == (if raw[0] == ' ' then [] else head) by {
        assert head[1..] == [];
        ConfusionKeepsSpace(raw[0]);
      }
      RemoveSpacesAfterMap(raw[1..]);
    }
  }

  /** Replacement chain followed by space deletion is the single pass. */
  lemma ChainThenRemoveIsSinglePass(raw: string)
    ensures RemoveChar(ReplaceChain(raw), ' ') == CorrectChars(raw)
  {
    ReplaceChainIsPerCharMap(raw);
    RemoveSpacesAfterMap(raw);
  }

  /** The whole post-correction equals the single pass followed by
      `strip()`. */
  lemma CorrectReadingIsSinglePass(raw: string)
    ensures CorrectReading(raw) == Strip(CorrectChars(raw))
  {
    ChainThenRemoveIsSinglePass(raw);
  }

  /** A digit some confusable letter is rewritten to. */
  predicate IsCorrectionTarget(c: char) {
    c == '0' || c == '1' || c == '2' || c == '5' || c == '8'
  }

  /** A character that the table neither rewrites nor produces, and that is
      not whitespace, keeps its number of occurrences. */
  lemma CorrectReadingKeepsOthers(raw: string, c: char)
    requires !IsConfusable(c) && !IsCorrectionTarget(c) && !IsSpace(c)
    ensures multiset(CorrectReading(raw))[c] == multiset(raw)[c]
  {
    var replaced := ReplaceChain(raw);
    ReplaceChainIsPerCharMap(raw);
    MapConfusionCount(raw, c);
    RemoveCharKeepsOthers(replaced, ' ', c);
    StripKeepsNonSpace(RemoveChar(replaced, ' '), c);
  }

  /** The correction removes every `B` and never produces a `b`. */
  lemma CorrectReadingKeepsOutB(raw: string)
    requires 'b' !in raw
    ensures 'b' !in CorrectReading(raw) && 'B' !in CorrectReading(raw)
  {
    CorrectReadingKeepsOthers(raw, 'b');
  }

  lemma {:induction false} MapConfusionCount(s: string, c: char)
    requires !IsConfusable(c) && !IsCorrectionTarget(c)
    ensures multiset(MapConfusion(s))[c] == multiset(s)[c]
  {
    if |s| > 0 {
      assert s == [s[0]] + s[1..];
      assert MapConfusion(s) == [Confusion(s[0])] + MapConfusion(s[1..]);
      assert (Confusion(s[0]) == c) == (s[0] == c);
      MapConfusionCount(s[1..], c);
    }
  }

  /** Composes the three stages of `CorrectReading` from known
      intermediate values. */
  lemma CorrectReadingStages(raw: string, replaced: string, spaceless: string, text: string)
    requires ReplaceChain(raw) == replaced
    requires RemoveChar(replaced, ' ') == spaceless
    requires Strip(spaceless) == text
    ensures CorrectReading(raw) == text
  {
  }

  /** Each confusable character is mapped independently of its position.
      The reading is passed in rather than written as a literal, so that
      the verifier does not unroll the recursive string functions on it. */
  lemma CorrectionExample(raw: string)
    requires raw == "O0I1Z2S5B8"
    ensures CorrectReading(raw) == "0011225588"
  {
    var fixed := "0011225588";
    ReplaceChainExample(raw, fixed);
    CleanTextIsFixedPoint(fixed);
    CorrectReadingStages(raw, fixed, fixed, fixed);
  }

  /** Text without spaces and without surrounding whitespace passes the
      last two stages unchanged. */
  lemma CleanTextIsFixedPoint(text: string)
    requires ' ' !in text
    requires |text| > 0 ==> !IsSpace(text[0]) && !IsSpace(text[|text| - 1])
    ensures Strip(RemoveChar(text, ' ')) == text
  {
    StripUntrimmed(text);
  }

  lemma ReplaceChainExample(raw: string, fixed: string)
    requires raw == "O0I1Z2S5B8" && fixed == "0011225588"
    ensures ReplaceChain(raw) == fixed
  {
    assert forall i :: 0 <= i < 10 ==> ReplaceChain(raw)[i] == fixed[i];
  }
}
