/**
 * The moderation gate: a fixed denylist checked against the lower-cased
 * text, then an external classifier whose failures are treated as "safe".
 */
module Moderation {
  import opened Wrappers
  import opened Strings

  /** The gate's answer: `{ safe, reason? }`. */
  datatype Verdict = Verdict(safe: bool, reason: Option<string>)

  /**
   * What the external classifier call yields: a parsed verdict, an empty
   * reply, or a failure (network error, exception, unparseable JSON).
   */
  datatype ClassifierReply = Answered(verdict: Verdict) | NoOutput | Failed

  /** The prohibited substrings; all lower-case. */
  const Denylist: seq<string> := ["profanity1", "profanity2", "badword1"]

  const ProhibitedReason: string := "Contains prohibited language."

  /** The fixed verdict for denylisted text. */
  const Prohibited: Verdict := Verdict(false, Some(ProhibitedReason))

  /** The lower-cased text contains some denylisted word. */
  predicate IsDenylisted(text: string)
    // No entry is shorter than eight letters, so no shorter text is refused.
    ensures IsDenylisted(text) ==> |text| >= 8
  {
    exists i :: 0 <= i < |Denylist| && Includes(ToLower(text), Denylist[i])
  }

  /**
   * `moderateContent(text)`. The classifier is handed the raw text; it is
   * a parameter because the real one is a remote service.
   */
  function Moderate(text: string, classify: string -> ClassifierReply): (v: Verdict)
    // A denylist hit is rejected with the fixed reason.
    ensures IsDenylisted(text) ==> v == Prohibited
    // Past the denylist, a parsed classifier verdict is returned unchanged.
    ensures !IsDenylisted(text) && classify(text).Answered? ==> v == classify(text).verdict
    // Fail open: text is refused only by the denylist or by the classifier's own verdict.
    ensures !v.safe ==> IsDenylisted(text) || classify(text) == Answered(v)
    // An empty reply or a failed call lets the text through.
    ensures !IsDenylisted(text) && !classify(text).Answered? ==> v == Verdict(true, None)
  {
    if IsDenylisted(text) then Prohibited
    else match classify(text)
      case Answered(verdict) => verdict
      case NoOutput => Verdict(true, None)
      case Failed => Verdict(true, None)
  }

  /**
   * The classifier is never consulted for denylisted text: the verdict is the
   * same whatever the classifier would have answered.
   */
  lemma DenylistSkipsClassifier(text: string, c1: string -> ClassifierReply, c2: string -> ClassifierReply)
    requires IsDenylisted(text)
    ensures Moderate(text, c1) == Moderate(text, c2) == Prohibited
  {
  }

  /** Every denylist entry is lower-case, so every entry can match at all. */
  lemma DenylistIsLowerCase()
    ensures forall i :: 0 <= i < |Denylist| ==> ToLower(Denylist[i]) == Denylist[i]
  {
  }

  /** The denylist check ignores case: upper-casing the text does not change its verdict. */
  lemma {:induction false} DenylistIgnoresCase(text: string)
    ensures IsDenylisted(ToUpper(text)) <==> IsDenylisted(text)
  {
    LowerOfUpper(text);
  }
}
