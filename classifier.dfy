/** The keyword scam classifier: a text is a scam when its lower-cased form
    contains one of six fixed keywords as a plain substring. */
module Classifier {
  import opened Text

  /** The classifier's vocabulary, in the order the source lists it. */
  const Keywords: seq<string> := ["blocked", "verify", "urgent", "upi", "account", "kyc"]

  /** Some word of `words` occurs in `t`, trying the words in order. */
  function AnyOccurs(words: seq<string>, t: string): bool {
    if words == [] then false
    else Contains(t, words[0]) || AnyOccurs(words[1..], t)
  }

  /** The search over the words succeeds exactly when one of them occurs. */
  lemma {:induction false} AnyOccursSpec(words: seq<string>, t: string)
    ensures AnyOccurs(words, t) <==> exists k :: 0 <= k < |words| && Occurs(words[k], t)
  {
    if words != [] {
      ContainsOccurs(t, words[0]);
      AnyOccursSpec(words[1..], t);
      assert forall k :: 1 <= k < |words| ==> words[k] == words[1..][k - 1];
    }
  }

  /** `is_it_a_scam`: some keyword is a substring of the lower-cased text. */
  function IsItAScam(text: string): bool {
    AnyOccurs(Keywords, Lower(text))
  }

  /** A text is a scam exactly when one of the keywords occurs in its
      lower-cased form. */
  lemma IsItAScamSpec(text: string)
    ensures IsItAScam(text) <==> exists w :: w in Keywords && Occurs(w, Lower(text))
  {
    AnyOccursSpec(Keywords, Lower(text));
  }

  /** The verdict only depends on the text up to ASCII case. */
  lemma {:induction false} ScamCaseInsensitive(a: string, b: string)
    requires SameUpToCase(a, b)
    ensures IsItAScam(a) == IsItAScam(b)
  {
    SameUpToCaseLower(a, b);
  }

  /** In particular, lower-casing the text first changes nothing. */
  lemma {:induction false} ScamOfLower(text: string)
    ensures IsItAScam(Lower(text)) == IsItAScam(text)
  {
    LowerIdempotent(text);
  }

  /** Every keyword has at least three characters, so shorter texts,
      the empty text among them, are never classified as scams. */
  lemma {:induction false} ShortTextNotScam(text: string)
    requires |text| < 3
    ensures !IsItAScam(text)
  {
    IsItAScamSpec(text);
  }

  /** There is no word-boundary check: "cupid" is a scam because it contains "upi". */
  lemma CupidIsScam()
    ensures IsItAScam("cupid")
  {
    var t := "cupid";
    IsItAScamSpec(t);
    assert Lower(t) == t;
    assert t[1..4] == "upi";
    assert OccursAt("upi", t, 1);
  }

  /** "equipment" spells "uip", not "upi", and holds no other keyword either. */
  lemma EquipmentIsNotScam()
    ensures !IsItAScam("equipment")
  {
    var t := "equipment";
    assert Lower(t) == t;
    forall w, i | w in Keywords && 0 <= i && i + |w| <= |t|
      ensures !OccursAt(w, t, i)
    {
      assert t[i..i + |w|][0] == t[i] && t[i..i + |w|][1] == t[i + 1];
    }
    IsItAScamSpec(t);
  }

  /** Adding text around a scam text never clears the verdict. */
  lemma {:induction false} ScamInContext(a: string, text: string, c: string)
    requires IsItAScam(text)
    ensures IsItAScam(a + text + c)
  {
    IsItAScamSpec(text);
    IsItAScamSpec(a + text + c);
    var w :| w in Keywords && Occurs(w, Lower(text));
    LowerConcat(a, text);
    LowerConcat(a + text, c);
    OccursInContext(w, Lower(a), Lower(text), Lower(c));
  }
}
