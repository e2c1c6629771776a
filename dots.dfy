/**
 * The body of the 500 ms interval started on every accepted click: append a
 * dot, and fall back to the bare placeholder text once the content is three
 * characters longer than that text.
 */
module Dots {

  /** `n` dots. */
  function Dots(n: nat): (s: string)
    ensures |s| == n
    ensures forall k :: 0 <= k < n ==> s[k] == '.'
  {
    if n == 0 then "" else Dots(n - 1) + "."
  }

  /**
   * One run of the interval callback, from the content it finds in the
   * element: either it resets to `text`, or the content grew by one dot
   * without landing exactly on the reset length.
   */
  function Ticked(html: string, text: string): (r: string)
    ensures r == text || (r == html + "." && |r| != |text| + 3)
    ensures |html| + 1 == |text| + 3 ==> r == text
    ensures |html| + 1 != |text| + 3 ==> r == html + "."
  {
    var grown := html + ".";
    if |grown| == |text| + 3 then text else grown
  }

  /** The element's content after `n` runs of the callback, starting from `html`. */
  function Ticks(html: string, text: string, n: nat): string {
    if n == 0 then html else Ticked(Ticks(html, text, n - 1), text)
  }

  /**
   * Text mode: the content starts as the placeholder text itself and cycles
   * through zero, one and two trailing dots; three are never shown.
   */
  lemma {:induction false} TextModeCycle(text: string, n: nat)
    ensures Ticks(text, text, n) == text + Dots(n % 3)
  {
    if n > 0 {
      TextModeCycle(text, n - 1);
      if (n - 1) % 3 == 2 {
        assert |Ticks(text, text, n - 1) + "."| == |text| + 3;
      } else {
        assert Dots((n - 1) % 3) + "." == Dots(n % 3);
      }
    }
  }

  /** `shown` is `text` followed by at most two dots. */
  predicate TextWithFewDots(shown: string, text: string) {
    |text| <= |shown| <= |text| + 2 &&
    shown[..|text|] == text &&
    forall k :: |text| <= k < |shown| ==> shown[k] == '.'
  }

  /** Between ticks in text mode, the content is the placeholder text followed by at most two dots. */
  lemma {:induction false} TextModeSuffixBounded(text: string, n: nat)
    ensures TextWithFewDots(Ticks(text, text, n), text)
  {
    TextModeCycle(text, n);
  }

  /** Each content shown after a tick in text mode is the text followed by at most two dots. */
  lemma {:induction false} TextModeShownBounded(text: string, shown: seq<string>)
    requires forall k :: 0 <= k < |shown| ==> shown[k] == Ticks(text, text, k + 1)
    ensures forall k :: 0 <= k < |shown| ==> TextWithFewDots(shown[k], text)
  {
    forall k | 0 <= k < |shown| ensures TextWithFewDots(shown[k], text) {
      TextModeSuffixBounded(text, k + 1);
    }
  }

  /**
   * HTML mode, long placeholder: the interval runs in HTML mode as well, and
   * when the placeholder is already at least three characters longer than
   * the text the reset length is never met, so dots pile up without bound.
   */
  lemma {:induction false} LongPlaceholderGrows(html: string, text: string, n: nat)
    requires |html| >= |text| + 3
    ensures Ticks(html, text, n) == html + Dots(n)
  {
    if n > 0 {
      LongPlaceholderGrows(html, text, n - 1);
      assert html + Dots(n - 1) + "." == html + Dots(n);
    }
  }

  /** HTML mode, short placeholder: dots are added until the reset length is one away. */
  lemma {:induction false} ShortPlaceholderGrows(html: string, text: string, n: nat)
    requires |html| + n <= |text| + 2
    ensures Ticks(html, text, n) == html + Dots(n)
  {
    if n > 0 {
      ShortPlaceholderGrows(html, text, n - 1);
      assert html + Dots(n - 1) + "." == html + Dots(n);
    }
  }

  /**
   * HTML mode, short placeholder: the next tick replaces the markup with the
   * plain text (the default "Downloading", as text mode is off).
   */
  lemma {:induction false} ShortPlaceholderBecomesText(html: string, text: string)
    requires |html| < |text| + 3
    ensures Ticks(html, text, |text| + 3 - |html|) == text
  {
    ShortPlaceholderGrows(html, text, |text| + 2 - |html|);
  }
}
