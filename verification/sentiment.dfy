/** The keyword sentiment classifier and the interface method the service
    actually exposes. */
module Sentiment {
  import opened Wrappers
  import opened Text

  const Positive: string := "Positivo"
  const Negative: string := "Negativo"
  const Neutral: string := "Neutro"

  const PositiveWords: seq<string> := ["ótimo", "bom", "excelente"]
  const NegativeWords: seq<string> := ["ruim", "péssimo", "horrível"]

  /** The text contains at least one of the words. */
  predicate MentionsAny(text: string, words: seq<string>) {
    exists i :: 0 <= i < |words| && Contains(text, words[i])
  }

  lemma MentionsAnyOfThree(text: string, words: seq<string>)
    requires |words| == 3
    ensures MentionsAny(text, words) <==> Contains(text, words[0]) || Contains(text, words[1]) || Contains(text, words[2])
  {
    if MentionsAny(text, words) {
      var i :| 0 <= i < |words| && Contains(text, words[i]);
      assert i == 0 || i == 1 || i == 2;
    }
  }

  /** `SentimentAnalysisService.AnalizeSentiment`: positive words win over
      negative ones, and a text with neither is neutral. */
  function AnalizeSentiment(text: string): (sentiment: string)
    ensures sentiment == Positive <==> MentionsAny(ToLower(text), PositiveWords)
    ensures sentiment == Negative <==> !MentionsAny(ToLower(text), PositiveWords) && MentionsAny(ToLower(text), NegativeWords)
    ensures sentiment == Neutral <==> !MentionsAny(ToLower(text), PositiveWords) && !MentionsAny(ToLower(text), NegativeWords)
  {
    var lower := ToLower(text);
    MentionsAnyOfThree(lower, PositiveWords);
    MentionsAnyOfThree(lower, NegativeWords);
    if Contains(lower, "ótimo") || Contains(lower, "bom") || Contains(lower, "excelente") then Positive
    else if Contains(lower, "ruim") || Contains(lower, "péssimo") || Contains(lower, "horrível") then Negative
    else Neutral
  }

  /** The classification depends on the lower-cased text only. */
  lemma AnalizeSentimentIgnoresCase(text: string)
    ensures AnalizeSentiment(ToLower(text)) == AnalizeSentiment(text)
  {
    ToLowerIdempotent(text);
  }

  /** Upper-case keywords are recognised, and a positive word outweighs a
      negative one in the same text. */
  lemma AnalizeSentimentExamples()
    ensures AnalizeSentiment("Produto BOM") == Positive
    ensures AnalizeSentiment("ruim mas ÓTIMO") == Positive
    ensures AnalizeSentiment("Péssimo") == Negative
  {
    assert ToLower("Produto BOM") == "produto bom";
    assert OccursAt("produto bom", "bom", 8);
    assert ToLower("ruim mas ÓTIMO") == "ruim mas ótimo";
    assert OccursAt("ruim mas ótimo", "ótimo", 9);
    assert ToLower("Péssimo") == "péssimo";
    assert OccursAt("péssimo", "péssimo", 0);
    assert !Contains("péssimo", "ótimo") by {
      forall i | 0 <= i <= 2
        ensures !OccursAt("péssimo", "ótimo", i)
      {
        assert "péssimo"[i + 4] != "ótimo"[4] || "péssimo"[i] != "ótimo"[0];
      }
    }
    assert !Contains("péssimo", "bom") by {
      forall i | 0 <= i <= 4
        ensures !OccursAt("péssimo", "bom", i)
      {
        assert "péssimo"[i] != "bom"[0];
      }
    }
  }

  /** The message of `NotImplementedException`. */
  const NotImplementedMessage: string := "The method or operation is not implemented."

  /** `ISentimentAnalysisService.AnalyzeSentiment` as implemented by the
      service: it always throws. */
  function AnalyzeSentiment(text: string): (r: Result<string, string>)
    ensures r.Failure? && r.error == NotImplementedMessage
  {
    Failure(NotImplementedMessage)
  }

  /** The classifier behind the interface method, as evidently intended. */
  function AnalyzeSentimentIntended(text: string): (r: Result<string, string>)
    ensures r.Success? && r.value in {Positive, Negative, Neutral}
    ensures r.value == AnalizeSentiment(text)
  {
    Success(AnalizeSentiment(text))
  }
}
