/**
 `WordDetailScreen`: the detail card of one word. It shows the word, the
 part of speech with WordNet's one-letter codes spelt out, the definition,
 and the optional example, synonym and antonym sections.
 */
module WordDetailScreen {
  import opened Wrappers
  import opened Js
  import Dict

  /** A list section: absent, or one chip per element in order. */
  datatype Section = Hidden | Chips(items: seq<Value>)

  /** What the screen shows. `RenderError` is the screen failing: the
      `TypeError` raised when a list section is shown for a value that has
      no `map` method, or React refusing a child that is a plain object. */
  datatype View =
    | NoDetails
    | Details(word: Value, partOfSpeech: Option<Value>, definition: Value, example: Option<Value>,
              synonyms: Section, antonyms: Section)
    | RenderError

  /** `word` and `info`, read from `route.params || {}`. */
  function Word(params: Value): Value {
    Get(Or(params, EmptyObject), "word")
  }

  function Info(params: Value): Value {
    Get(Or(params, EmptyObject), "info")
  }

  /** The nested conditional that spells out `n`, `v`, `a` and `r`; any
      other value is shown as it is. */
  function ExpandPartOfSpeech(pos: Value): (shown: Value)
    ensures pos == Str("n") ==> shown == Str("noun")
    ensures pos == Str("v") ==> shown == Str("verb")
    ensures pos == Str("a") ==> shown == Str("adjective")
    ensures pos == Str("r") ==> shown == Str("adverb")
    ensures pos !in {Str("n"), Str("v"), Str("a"), Str("r")} ==> shown == pos
  {
    if pos == Str("n") then Str("noun")
    else if pos == Str("v") then Str("verb")
    else if pos == Str("a") then Str("adjective")
    else if pos == Str("r") then Str("adverb")
    else pos
  }

  /** Spelling out is idempotent: a spelt-out name is never itself a code,
      and a value that changes is one of the four codes. */
  lemma ExpandIsIdempotent(pos: Value)
    ensures ExpandPartOfSpeech(ExpandPartOfSpeech(pos)) == ExpandPartOfSpeech(pos)
    ensures ExpandPartOfSpeech(pos) != pos ==> pos in {Str("n"), Str("v"), Str("a"), Str("r")}
  {
  }

  /** `x > 0` for the `length` property of an object; string and array
      operands are not converted to numbers in this model. */
  predicate Positive(x: Value) {
    (x.Num? && x.n > 0.0) || x == Bool(true)
  }

  /** `list.length > 0` for a truthy value: arrays and strings by their
      length, objects by their `length` property, numbers and booleans never
      (their `length` is `undefined`). */
  predicate LengthPositive(list: Value)
    requires !IsNullish(list)
  {
    match list
    case Arr(items) => |items| > 0
    case Str(s) => |s| > 0
    case Obj(_) => Positive(Get(list, "length"))
    case _ => false
  }

  /** `list && list.length > 0`: whether the section is shown at all. */
  predicate Shown(list: Value) {
    Truthy(list) && LengthPositive(list)
  }

  /** The section shown for a list that `Shown` admits and that is an array. */
  function ListSection(list: Value): (s: Section)
    requires !Shown(list) || list.Arr?
    ensures s.Chips? <==> list.Arr? && list.items != []
    ensures s.Chips? ==> s.items == list.items
  {
    if Shown(list) then Chips(list.items) else Hidden
  }

  /** A shown list section fails when the list has no `map`, or when one of
      its elements, the text of a chip, cannot be rendered. */
  predicate ListFails(list: Value) {
    Shown(list) && !(list.Arr? && Renderable(list))
  }

  /** What `x && (…)` leaves behind when `x` is falsy and the expression sits
      directly in a view rather than inside a `<Text>`: React shows `false`,
      `null`, `undefined` and `''` as nothing, but makes a text node of the
      number `0`, which React Native refuses outside `<Text>`. */
  predicate StrayText(x: Value) {
    x == Num(0.0)
  }

  /** The screen. */
  function Render(params: Value): (v: View)
    ensures v.NoDetails? <==> !Truthy(Word(params)) || !Truthy(Info(params))
    ensures v.RenderError? <==>
              && Truthy(Word(params)) && Truthy(Info(params))
              && (|| !Renderable(Word(params))
                  || StrayText(Get(Info(params), "pos"))
                  || StrayText(Get(Info(params), "example"))
                  || StrayText(Get(Info(params), "synonyms"))
                  || StrayText(Get(Info(params), "antonyms"))
                  || (Truthy(Get(Info(params), "pos")) && !Renderable(Get(Info(params), "pos")))
                  || !Renderable(Get(Info(params), "definition"))
                  || (Truthy(Get(Info(params), "example")) && !Renderable(Get(Info(params), "example")))
                  || (Shown(Get(Info(params), "synonyms")) && !Get(Info(params), "synonyms").Arr?)
                  || (Shown(Get(Info(params), "antonyms")) && !Get(Info(params), "antonyms").Arr?)
                  || (Get(Info(params), "synonyms").Arr? && exists i :: 0 <= i < |Get(Info(params), "synonyms").items|
                                                                   && !Renderable(Get(Info(params), "synonyms").items[i]))
                  || (Get(Info(params), "antonyms").Arr? && exists i :: 0 <= i < |Get(Info(params), "antonyms").items|
                                                                   && !Renderable(Get(Info(params), "antonyms").items[i])))
    ensures v.Details? ==>
              && Renderable(v.word) && Renderable(v.definition)
              && (v.partOfSpeech.Some? ==> Renderable(v.partOfSpeech.value))
              && (v.example.Some? ==> Renderable(v.example.value))
  {
    var word := Word(params);
    var info := Info(params);
    if !Truthy(word) || !Truthy(info) then NoDetails
    else
      var pos := Get(info, "pos");
      var definition := Get(info, "definition");
      var example := Get(info, "example");
      var synonyms := Get(info, "synonyms");
      var antonyms := Get(info, "antonyms");
      if || StrayText(pos) || StrayText(example) || StrayText(synonyms) || StrayText(antonyms)
         || !Renderable(word)
         || (Truthy(pos) && !Renderable(ExpandPartOfSpeech(pos)))
         || !Renderable(definition)
         || (Truthy(example) && !Renderable(example))
         || ListFails(synonyms) || ListFails(antonyms)
      then RenderError
      else
        Details(word,
                if Truthy(pos) then Some(ExpandPartOfSpeech(pos)) else None,
                definition,
                if Truthy(example) then Some(example) else None,
                ListSection(synonyms),
                ListSection(antonyms))
  }

  /** With both parameters present: the part-of-speech line appears exactly
      when `pos` is truthy, spelt out; the definition always appears, as
      given; the example appears exactly when it is truthy; each list section
      appears exactly when its list is a non-empty array, with one chip per
      element in order. */
  lemma SectionVisibility(params: Value)
    requires Render(params).Details?
    ensures var v := Render(params);
            var info := Info(params);
            && v.word == Word(params)
            && (v.partOfSpeech.Some? <==> Truthy(Get(info, "pos")))
            && (v.partOfSpeech.Some? ==> v.partOfSpeech.value == ExpandPartOfSpeech(Get(info, "pos")))
            && v.definition == Get(info, "definition")
            && (v.example.Some? <==> Truthy(Get(info, "example")))
            && (v.example.Some? ==> v.example.value == Get(info, "example"))
            && (v.synonyms.Chips? <==> Get(info, "synonyms").Arr? && Get(info, "synonyms").items != [])
            && (v.synonyms.Chips? ==> v.synonyms.items == Get(info, "synonyms").items)
            && (v.antonyms.Chips? <==> Get(info, "antonyms").Arr? && Get(info, "antonyms").items != [])
            && (v.antonyms.Chips? ==> v.antonyms.items == Get(info, "antonyms").items)
  {
  }

  /** A bare string where an object is expected (the payload shape
      `{word: definition}`) still renders, but with an empty definition and
      no optional sections: a string has none of the properties read. */
  lemma StringInfoShowsNoDefinition(word: string, definition: string)
    requires word != [] && definition != []
    ensures var v := Render(Obj([("word", Str(word)), ("info", Str(definition))]));
            && v.Details?
            && v.definition == Undefined
            && v.partOfSpeech.None? && v.example.None?
            && v.synonyms.Hidden? && v.antonyms.Hidden?
  {
    var params := Obj([("word", Str(word)), ("info", Str(definition))]);
    assert Dict.Get(params.fields, "info") == Dict.Get(params.fields[1..], "info");
    assert Info(params) == Str(definition);
    assert Word(params) == Str(word);
  }

  /** A plain object anywhere React is asked to show one, here as the
      definition, makes the screen fail instead of showing details. */
  lemma ObjectDefinitionFails(word: string, definition: Dict.Dict<Value>)
    requires word != []
    ensures var info := Obj([("definition", Obj(definition))]);
            Render(Obj([("word", Str(word)), ("info", info)])) == RenderError
  {
    var info := Obj([("definition", Obj(definition))]);
    var params := Obj([("word", Str(word)), ("info", info)]);
    assert Dict.Get(params.fields, "info") == Dict.Get(params.fields[1..], "info");
    assert Info(params) == info;
    assert Get(info, "definition") == Obj(definition);
  }

  /** A part of speech of `0` is falsy, so `info.pos && (…)` yields `0`
      inside the header view, and the screen fails instead of showing the
      word without a part-of-speech line. */
  lemma ZeroPartOfSpeechFails(word: string, definition: string)
    requires word != []
    ensures var info := Obj([("definition", Str(definition)), ("pos", Num(0.0))]);
            Render(Obj([("word", Str(word)), ("info", info)])) == RenderError
  {
    var info := Obj([("definition", Str(definition)), ("pos", Num(0.0))]);
    var params := Obj([("word", Str(word)), ("info", info)]);
    assert Dict.Get(params.fields, "info") == Dict.Get(params.fields[1..], "info");
    assert Info(params) == info;
    assert Dict.Get(info.fields, "pos") == Dict.Get(info.fields[1..], "pos");
    assert Get(info, "pos") == Num(0.0);
  }
}
