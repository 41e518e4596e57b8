/**
 * The stand-in classifier of the HTTP request handler: a fixed list of words
 * looked for as substrings of the lower-cased text.
 */
module Keyword {
  import opened Chars
  import opened Classifier

  const ToxicWords: seq<string> := ["hate", "stupid", "idiot", "kill", "die", "fuck"]

  /** The first listed word that occurs in `text`, scanning the list in order. */
  function FirstHit(words: seq<string>, text: string): (r: bool)
    ensures r <==> exists i :: 0 <= i < |words| && Occurs(words[i], text)
  {
    if words == [] then false
    else if Occurs(words[0], text) then true
    else
      var r := FirstHit(words[1..], text);
      assert forall i :: 1 <= i < |words| ==> words[i] == words[1..][i - 1];
      r
  }

  /** `classify_dm(text)` of the request handler. */
  function KeywordClassify(text: string): (v: Verdict)
    ensures v.category == "TOXIC" <==> exists i :: 0 <= i < |ToxicWords| && Occurs(ToxicWords[i], Lower(text))
    ensures v.category == "TOXIC" ==> v.score == Num(0.8)
    ensures v.category != "TOXIC" ==> v == Verdict("NON_TOXIC", Num(0.2))
  {
    if FirstHit(ToxicWords, Lower(text)) then Verdict("TOXIC", Num(0.8))
    else Verdict("NON_TOXIC", Num(0.2))
  }

  /** Every listed word is already lower case. */
  lemma ToxicWordsAreLower(k: nat)
    requires k < |ToxicWords|
    ensures forall j :: 0 <= j < |ToxicWords[k]| ==> !IsUpperChar(ToxicWords[k][j])
  {
  }

  /** A text with a listed word anywhere in it is flagged, whatever surrounds it. */
  lemma ContainingListedWordIsToxic(pre: string, k: nat, post: string)
    requires k < |ToxicWords|
    ensures KeywordClassify(pre + ToxicWords[k] + post) == Verdict("TOXIC", Num(0.8))
  {
    var w := ToxicWords[k];
    var t := pre + w + post;
    var l := Lower(t);
    ToxicWordsAreLower(k);
    forall j | 0 <= j < |w| ensures l[|pre| + j] == w[j] {
      assert t[|pre| + j] == w[j];
    }
    assert l[|pre|..|pre| + |w|] == w;
    assert InfixAt(w, l, |pre|);
  }

  /** The insult "I hate you, you stupid idiot" is flagged, through the word "hate". */
  lemma InsultIsToxic()
    ensures KeywordClassify("I hate you, you stupid idiot") == Verdict("TOXIC", Num(0.8))
  {
    assert "I hate you, you stupid idiot" == "I " + ToxicWords[0] + " you, you stupid idiot";
    ContainingListedWordIsToxic("I ", 0, " you, you stupid idiot");
  }
}
