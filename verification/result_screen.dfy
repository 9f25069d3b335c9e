/**
 `ResultScreen`: lists the complex words of the payload it was navigated
 with, one row per entry of `complex_words`, each showing the word and the
 value exactly as received. A value React cannot render, a plain object,
 makes the whole screen fail.
 */
module ResultScreen {
  import opened Js
  import Dict

  /** What the screen shows. `RenderError` is React refusing a row value
      that is a plain object. */
  datatype View = NoResults | WordList(rows: seq<(string, Value)>) | RenderError

  /** `data`, read from `route.params || {}`. */
  function Data(params: Value): Value {
    Get(Or(params, EmptyObject), "data")
  }

  /** Every row shows a value React can render. */
  predicate RowsRenderable(rows: seq<(string, Value)>) {
    forall i :: 0 <= i < |rows| ==> Renderable(rows[i].1)
  }

  /** The screen shows "No results found" unless both `data` and
      `data.complex_words` are truthy; otherwise one row per entry of
      `complex_words`, in enumeration order, unless some entry's value
      cannot be rendered. */
  function Render(params: Value): (v: View)
    ensures v.NoResults? <==> !Truthy(Data(params)) || !Truthy(Get(Data(params), "complex_words"))
    ensures v.WordList? ==> |v.rows| == KeyCount(Get(Data(params), "complex_words"))
    ensures v.WordList? ==> forall i :: 0 <= i < |v.rows| ==> Renderable(v.rows[i].1)
    ensures v.RenderError? <==>
              && Truthy(Data(params)) && Truthy(Get(Data(params), "complex_words"))
              && exists i :: 0 <= i < |Entries(Get(Data(params), "complex_words"))|
                             && !Renderable(Entries(Get(Data(params), "complex_words"))[i].1)
  {
    var data := Data(params);
    if !Truthy(data) || !Truthy(Get(data, "complex_words")) then NoResults
    else
      var rows := Entries(Get(data, "complex_words"));
      if RowsRenderable(rows) then WordList(rows) else RenderError
  }

  /** For a `complex_words` object, the list appears exactly when every value
      can be rendered, and then its rows are the entries rearranged: each
      entry has exactly one row, keyed by its word and showing its value
      unchanged, and no row has any other content. */
  lemma OneRowPerEntry(params: Value)
    requires Truthy(Data(params))
    requires Get(Data(params), "complex_words").Obj?
    requires Dict.DistinctKeys(Get(Data(params), "complex_words").fields)
    ensures var fields := Get(Data(params), "complex_words").fields;
            var v := Render(params);
            && (v.WordList? <==> forall e :: e in fields ==> Renderable(e.1))
            && (v.RenderError? <==> exists e :: e in fields && !Renderable(e.1))
            && (v.WordList? ==>
                  && multiset(v.rows) == multiset(fields)
                  && Dict.DistinctKeys(v.rows)
                  && (forall e :: e in fields <==> e in v.rows))
  {
    var fields := Get(Data(params), "complex_words").fields;
    var rows := Entries(Get(Data(params), "complex_words"));
    assert forall e :: e in fields <==> e in rows by {
      assert forall e :: e in fields <==> e in multiset(fields);
      assert forall e :: e in rows <==> e in multiset(rows);
    }
    RenderableIffEvery(fields, rows);
    if RowsRenderable(rows) {
      Dict.DistinctKeysOfPermutation(fields, rows);
    }
  }

  /** Rows holding the same entries are renderable exactly when every
      entry's value is. */
  lemma RenderableIffEvery(fields: seq<(string, Value)>, rows: seq<(string, Value)>)
    requires forall e :: e in fields <==> e in rows
    ensures RowsRenderable(rows) <==> forall e :: e in fields ==> Renderable(e.1)
  {
    if RowsRenderable(rows) {
      forall e | e in fields
        ensures Renderable(e.1)
      {
        var i :| 0 <= i < |rows| && rows[i] == e;
      }
    } else {
      var i :| 0 <= i < |rows| && !Renderable(rows[i].1);
      assert rows[i] in fields;
    }
  }

  /** An empty `complex_words` object is truthy, so the list header appears
      with no rows under it. */
  lemma EmptyWordsListNothing(params: Value)
    requires Truthy(Data(params))
    requires Get(Data(params), "complex_words") == EmptyObject
    ensures Render(params) == WordList([])
  {
    assert Entries(EmptyObject) == [];
  }
}
