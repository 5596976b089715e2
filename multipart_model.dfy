/**
 * Baked models as the model bake sees them, and the copy multipart model:
 * a multipart block model whose selected parts are each shown through the
 * copy model.
 */
module MultiPartModel {
  import opened Wrappers
  import opened World
  import CopyModel

  /** A multipart part: the (opaque) state predicate that selects it and its model. */
  datatype Selector = Selector(condition: nat, model: Model)

  /**
   * A baked model: a plain model, a vanilla multipart model whose selector
   * list reflection may or may not recover, a copy model around another
   * model, or a copy multipart model around a base with wrapped selectors.
   */
  datatype Model =
    | Plain(name: string)
    | VanillaMultiPart(name: string, parts: Option<seq<Selector>>)
    | CopyOf(inner: Model)
    | CopyMultiPart(base: Model, selectors: seq<Selector>)
  {
    /** The bake's "already wrapped" test. */
    predicate IsWrapped()
    {
      CopyOf? || CopyMultiPart?
    }
  }

  /** The base model whose quads the copy model re-textures: a copy model's own base, or the model wrapped on the fly. */
  function CopyBase(m: Model): Model
  {
    if m.CopyOf? then m.inner else m
  }

  /**
   * The quads one selector contributes for `state`: its copy-model quads
   * when its condition accepts the state, nothing otherwise.
   * `copyQuads(b)` are the quads a copy model around base `b` yields for
   * the requested side, data and render type.
   */
  function Contribution(s: Selector, state: BlockState, accepts: (nat, BlockState) -> bool,
                        copyQuads: Model -> seq<CopyModel.Quad>): seq<CopyModel.Quad>
  {
    if accepts(s.condition, state) then copyQuads(CopyBase(s.model)) else []
  }

  /** The selected parts' quads, concatenated in selector order. */
  function SelectedQuads(selectors: seq<Selector>, state: BlockState, accepts: (nat, BlockState) -> bool,
                         copyQuads: Model -> seq<CopyModel.Quad>): seq<CopyModel.Quad>
  {
    if |selectors| == 0 then []
    else Contribution(selectors[0], state, accepts, copyQuads) + SelectedQuads(selectors[1..], state, accepts, copyQuads)
  }

  /** Selecting from two runs of selectors is selecting from each, in order. */
  lemma {:induction false} SelectedQuadsAppend(a: seq<Selector>, b: seq<Selector>, state: BlockState,
                                               accepts: (nat, BlockState) -> bool, copyQuads: Model -> seq<CopyModel.Quad>)
    ensures SelectedQuads(a + b, state, accepts, copyQuads)
            == SelectedQuads(a, state, accepts, copyQuads) + SelectedQuads(b, state, accepts, copyQuads)
  {
    if |a| == 0 {
      assert a + b == b;
    } else {
      assert (a + b)[1..] == a[1..] + b;
      SelectedQuadsAppend(a[1..], b, state, accepts, copyQuads);
    }
  }

  /** Selectors that all reject the state contribute no quad. */
  lemma {:induction false} NoSelectedPartNoQuads(selectors: seq<Selector>, state: BlockState,
                                                 accepts: (nat, BlockState) -> bool, copyQuads: Model -> seq<CopyModel.Quad>)
    requires forall i :: 0 <= i < |selectors| ==> !accepts(selectors[i].condition, state)
    ensures SelectedQuads(selectors, state, accepts, copyQuads) == []
  {
    if |selectors| > 0 {
      NoSelectedPartNoQuads(selectors[1..], state, accepts, copyQuads);
    }
  }

  /**
   * getQuads of the copy multipart model: no state, no quads; otherwise the
   * quads of every accepting part, in selector order, each part shown
   * through a copy model (wrapped on the fly when it is not one).
   */
  method GetQuads(selectors: seq<Selector>, state: Option<BlockState>, accepts: (nat, BlockState) -> bool,
                  copyQuads: Model -> seq<CopyModel.Quad>) returns (quads: seq<CopyModel.Quad>)
    ensures state.None? ==> quads == []
    ensures state.Some? ==> quads == SelectedQuads(selectors, state.value, accepts, copyQuads)
  {
    if state.None? {
      return [];
    }
    quads := [];
    for i := 0 to |selectors|
      invariant quads == SelectedQuads(selectors[..i], state.value, accepts, copyQuads)
    {
      var pair := selectors[i];
      if accepts(pair.condition, state.value) {
        var subModel := pair.model;
        if subModel.CopyOf? {
          quads := quads + copyQuads(subModel.inner);
        } else {
          var wrappedModel := CopyOf(subModel);
          quads := quads + copyQuads(wrappedModel.inner);
        }
      }
      assert selectors[..i + 1] == selectors[..i] + [selectors[i]];
      SelectedQuadsAppend(selectors[..i], [selectors[i]], state.value, accepts, copyQuads);
    }
    assert selectors[..|selectors|] == selectors;
  }
}
