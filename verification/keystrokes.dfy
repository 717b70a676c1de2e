/**
 * createTypeSequence (server/server.js:68-79): text becomes one ECP
 * `keypress/Lit_<c>` command per character, each followed by a 100 ms delay.
 *
 * The base address is the string that `rokuConfig.address + "..."` starts
 * with (see Discovery.Text). A space is sent as the reserved `Lit_%20`
 * command; every other character is passed through verbatim, with no
 * filtering and no escaping.
 */
module Keystrokes {
  import opened Wrappers
  import opened Steps

  const SpaceCommand: string := "keypress/Lit_%20"
  const LiteralCommand: string := "keypress/Lit_"

  /** The pause pushed after every keystroke. */
  const KeyDelay: int := 100

  /** The URL pushed for one character: code unit 32 gets the reserved space command. */
  function KeyUrl(base: string, c: char): (r: string)
    ensures |base| < |r| && r[..|base|] == base && LiteralCommand <= r[|base|..]
    ensures c != ' ' ==> |r| == |base| + |LiteralCommand| + 1 && r[|r| - 1] == c
    ensures c == ' ' ==> |base| + 3 <= |r| && r[|r| - 3..] == "%20"
  {
    if c == ' ' then base + SpaceCommand else base + LiteralCommand + [c]
  }

  /** The list createTypeSequence returns, built as its loop builds it: two elements per character. */
  function TypeSequence(base: string, text: string): (r: seq<Step>)
    ensures |r| == 2 * |text|
    ensures AllKnown(r)
    decreases |text|
  {
    if text == [] then []
    else
      var prev := TypeSequence(base, text[..|text| - 1]);
      var r := prev + [Action(KeyUrl(base, text[|text| - 1])), Delay(KeyDelay)];
      assert forall j :: 0 <= j < |prev| ==> r[j] == prev[j];
      r
  }

  /** Element 2k is the keystroke for character k, element 2k+1 the 100 ms pause after it. */
  lemma {:induction false} TypeSequenceAt(base: string, text: string, k: nat)
    requires k < |text|
    ensures TypeSequence(base, text)[2 * k] == Action(KeyUrl(base, text[k]))
    ensures TypeSequence(base, text)[2 * k + 1] == Delay(KeyDelay)
    decreases |text|
  {
    var init := text[..|text| - 1];
    var prev := TypeSequence(base, init);
    var r := TypeSequence(base, text);
    assert r == prev + [Action(KeyUrl(base, text[|text| - 1])), Delay(KeyDelay)];
    if k < |init| {
      TypeSequenceAt(base, init, k);
      assert init[k] == text[k];
      assert r[2 * k] == prev[2 * k] && r[2 * k + 1] == prev[2 * k + 1];
    }
  }

  /** createTypeSequence itself: the `for` loop that pushes a URL and the number 100 per character. */
  method CreateTypeSequence(base: string, text: string) returns (sequence: seq<Step>)
    ensures |sequence| == 2 * |text|
    ensures forall k :: 0 <= k < |text| ==>
              sequence[2 * k] == Action(KeyUrl(base, text[k])) && sequence[2 * k + 1] == Delay(KeyDelay)
    ensures sequence == TypeSequence(base, text)
  {
    sequence := [];
    var i := 0;
    while i < |text|
      invariant 0 <= i <= |text|
      invariant sequence == TypeSequence(base, text[..i])
    {
      var url;
      if text[i] == ' ' {
        url := base + SpaceCommand;
      } else {
        url := base + LiteralCommand + [text[i]];
      }
      sequence := sequence + [Action(url)];
      sequence := sequence + [Delay(KeyDelay)];
      assert text[..i + 1][..i] == text[..i];
      i := i + 1;
    }
    assert text[..i] == text;
    forall k | 0 <= k < |text|
      ensures sequence[2 * k] == Action(KeyUrl(base, text[k])) && sequence[2 * k + 1] == Delay(KeyDelay)
    {
      TypeSequenceAt(base, text, k);
    }
  }

  /** Reads back the character a keystroke URL types, if it is one (the inverse of KeyUrl). */
  function KeyChar(base: string, url: string): Option<char> {
    var lit := base + LiteralCommand;
    if url == base + SpaceCommand then Some(' ')
    else if |url| == |lit| + 1 && url[..|lit|] == lit then Some(url[|lit|])
    else None
  }

  /** Reads back the text a keystroke list types, if it is one (the inverse of TypeSequence). */
  function TypedText(base: string, steps: seq<Step>): Option<string>
    decreases |steps|
  {
    if steps == [] then Some([])
    else if |steps| < 2 then None
    else
      var n := |steps|;
      match (steps[n - 2], steps[n - 1])
      case (Action(url), Delay(ms)) =>
        if ms != KeyDelay then None
        else (match (TypedText(base, steps[..n - 2]), KeyChar(base, url))
         case (Some(init), Some(c)) => Some(init + [c])
         case _ => None)
      case _ => None
  }

  /** Every character survives as itself: the space through Lit_%20, anything else verbatim. */
  lemma KeyCharRoundTrip(base: string, c: char)
    ensures KeyChar(base, KeyUrl(base, c)) == Some(c)
  {
    var lit := base + LiteralCommand;
    if c != ' ' {
      var url := KeyUrl(base, c);
      assert url == lit + [c];
      assert |url| != |base + SpaceCommand|;
      assert url[..|lit|] == lit;
    }
  }

  /** No character is filtered, merged or lost: the typed text can be read back from the list. */
  lemma {:induction false} TypeSequenceRoundTrip(base: string, text: string)
    ensures TypedText(base, TypeSequence(base, text)) == Some(text)
    decreases |text|
  {
    if text != [] {
      var init := text[..|text| - 1];
      var c := text[|text| - 1];
      assert TypeSequence(base, text) == TypeSequence(base, init) + [Action(KeyUrl(base, c)), Delay(KeyDelay)];
      assert init + [c] == text;
      TypeSequenceRoundTrip(base, init);
      KeyCharRoundTrip(base, c);
      TypedTextSnoc(base, TypeSequence(base, init), init, KeyUrl(base, c), c);
    }
  }

  /** Reading back one more keystroke and its pause adds one character. */
  lemma TypedTextSnoc(base: string, prev: seq<Step>, init: string, url: string, c: char)
    requires TypedText(base, prev) == Some(init) && KeyChar(base, url) == Some(c)
    ensures TypedText(base, prev + [Action(url), Delay(KeyDelay)]) == Some(init + [c])
  {
    var steps := prev + [Action(url), Delay(KeyDelay)];
    var n := |steps|;
    assert steps[n - 2] == Action(url) && steps[n - 1] == Delay(KeyDelay);
    assert steps[..n - 2] == prev;
  }

  /** Translating a concatenation is concatenating the translations. */
  lemma {:induction false} TypeSequenceAppend(base: string, a: string, b: string)
    ensures TypeSequence(base, a + b) == TypeSequence(base, a) + TypeSequence(base, b)
    decreases |b|
  {
    if b != [] {
      var b' := b[..|b| - 1];
      var c := b[|b| - 1];
      assert (a + b)[..|a + b| - 1] == a + b';
      assert (a + b)[|a + b| - 1] == c;
      TypeSequenceAppend(base, a, b');
      assert TypeSequence(base, a + b) == TypeSequence(base, a + b') + [Action(KeyUrl(base, c)), Delay(KeyDelay)];
      assert TypeSequence(base, b) == TypeSequence(base, b') + [Action(KeyUrl(base, c)), Delay(KeyDelay)];
    } else {
      assert a + b == a;
    }
  }
}
