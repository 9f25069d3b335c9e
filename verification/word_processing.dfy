/**
 The two helpers of `app/services/word_processing.py`: the length rule that
 makes a word "complex", and the WordNet definition lookup, whose dictionary
 is a parameter of the model.
 */
module WordProcessing {
  import opened Wrappers
  import Text

  /** One WordNet sense of a word, reduced to what the backend reads. */
  datatype Synset = Synset(name: string, definition: string)

  /** The WordNet corpus as seen through `wordnet.synsets(word)`: the senses
      of a word, most frequent first. */
  type WordNet = string -> seq<Synset>

  /** `is_complex_word`: a word is complex when it has more than six characters. */
  predicate IsComplexWord(word: string) {
    |word| > 6
  }

  /** Six characters is the longest simple word and seven the shortest complex one. */
  lemma ComplexBoundary(six: string, seven: string)
    requires |six| == 6 && |seven| == 7
    ensures !IsComplexWord(six) && IsComplexWord(seven)
  {
  }

  /** The rule looks only at length, so lowering a word never changes it. */
  lemma ComplexIgnoresCase(word: string)
    ensures IsComplexWord(Text.Lower(word)) <==> IsComplexWord(word)
  {
  }

  /** `get_word_definition`: `None` when WordNet knows no sense of the word,
      otherwise the definition of its first sense. */
  function GetWordDefinition(wordnet: WordNet, word: string): (r: Option<string>)
    ensures r.None? <==> wordnet(word) == []
    ensures r.Some? ==> r.value == wordnet(word)[0].definition
  {
    var synsets := wordnet(word);
    if synsets != [] then Some(synsets[0].definition) else None
  }

  /** Python truthiness of the lookup's result: present and not empty. */
  predicate IsDefinition(d: Option<string>) {
    d.Some? && d.value != ""
  }
}
