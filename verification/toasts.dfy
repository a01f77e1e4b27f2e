/**
 * The length cap `showToast` puts on a toast message. The message is taken
 * as its UTF-16 code units (`Js.Utf16`), which is what `length` and `slice`
 * count, so a cut may fall between the two halves of a surrogate pair.
 */
module Toasts {
  import opened Js

  const MAX_TOAST_LEN := 200
  /** `…`, U+2026, one code unit. */
  const ELLIPSIS: CodeUnit := 0x2026

  /**
   * The truncation in `showToast`: a message longer than the cap keeps its
   * first `MAX_TOAST_LEN - 1` units and gains an ellipsis, so it ends up
   * exactly at the cap; a shorter message is shown as it is.
   */
  function Truncate(msg: seq<CodeUnit>): (r: seq<CodeUnit>)
    ensures |msg| <= MAX_TOAST_LEN ==> r == msg
    ensures |r| <= MAX_TOAST_LEN
    ensures |msg| > MAX_TOAST_LEN ==> |r| == MAX_TOAST_LEN && r[MAX_TOAST_LEN - 1] == ELLIPSIS
    ensures |msg| > MAX_TOAST_LEN ==> r[..MAX_TOAST_LEN - 1] == msg[..MAX_TOAST_LEN - 1]
  {
    if |msg| > MAX_TOAST_LEN then msg[..MAX_TOAST_LEN - 1] + [ELLIPSIS] else msg
  }

  /** The shown text starts with the message's first `min(len, 199)` units. */
  lemma TruncateKeepsPrefix(msg: seq<CodeUnit>)
    ensures var n := if |msg| < MAX_TOAST_LEN - 1 then |msg| else MAX_TOAST_LEN - 1;
            Truncate(msg)[..n] == msg[..n]
  {
  }

  /** Truncating a shown message again changes nothing. */
  lemma TruncateIdempotent(msg: seq<CodeUnit>)
    ensures Truncate(Truncate(msg)) == Truncate(msg)
  {
  }

  /** A message of at most 200 code units, counted as `length` counts them, is shown whole. */
  lemma ShortMessageShown(text: string)
    requires JsLength(text) <= MAX_TOAST_LEN
    ensures Truncate(Utf16(text)) == Utf16(text)
  {
  }
}
