/**
 * What the two styles share: a formatted item (a formatter object holding its
 * record and the text it rendered) and the errors building a list can raise.
 */
module Citations {
  import opened Wrappers
  import opened Models

  /** A formatter object: its class `F`, the record it holds (`data`) and `formatted`. */
  datatype Item<F> = Item(formatter: F, data: Model, formatted: string)

  /** What building the formatted list can raise. */
  datatype FormatError =
    /** The style has no formatter for this model class (`formatters_map.get` gives `None`). */
    | UnsupportedModel(kind: Kind)
    /** `Template.substitute` found a placeholder without a keyword. */
    | KeyError(name: string)

  /** `items` are the records rendered one by one by `render`, in input order. */
  ghost predicate RenderedFrom<F>(items: seq<Item<F>>, models: seq<Model>, render: Model -> Result<Item<F>, FormatError>) {
    && |items| == |models|
    && forall i :: 0 <= i < |models| ==> render(models[i]).Ok? && items[i] == render(models[i]).value
  }

  /** Rendering one more record extends the rendered list by its item. */
  lemma RenderedFromExtend<F>(items: seq<Item<F>>, models: seq<Model>, render: Model -> Result<Item<F>, FormatError>)
    requires |models| > 0 && RenderedFrom(items, models[..|models| - 1], render)
    requires render(models[|models| - 1]).Ok?
    ensures RenderedFrom(items + [render(models[|models| - 1]).value], models, render)
  {
    var n := |models| - 1;
    var r := items + [render(models[n]).value];
    forall i | 0 <= i < |models|
      ensures render(models[i]).Ok? && r[i] == render(models[i]).value
    {
      if i < n {
        assert models[..n][i] == models[i];
        assert r[i] == items[i];
      } else {
        assert r[i] == render(models[n]).value;
      }
    }
  }
}
