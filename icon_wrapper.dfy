/** The span that wraps a Button's or a FAB's icon: always the same layout
    classes, and `invisible` while the component is loading, so that the
    icon keeps its space behind the spinner. */
module IconWrappers {
  import opened ClassNames

  /** The classes every icon wrapper carries. */
  const BaseTokens: seq<Token> := ["relative", "z-10", "inline-flex", "shrink-0"]

  /** The cn arguments of an icon wrapper. */
  function Inputs(loading: bool): (r: seq<ClassValue>)
    ensures |r| == 2 && r[0] == Str(Join(BaseTokens))
    ensures r[1] == Str("invisible") <==> loading
  {
    [Str(Join(BaseTokens)), if loading then Str("invisible") else Bool(false)]
  }

  /** The wrapper's arguments contribute the base classes, then `invisible`
      exactly while loading, and its class name holds `invisible` exactly
      while loading. */
  lemma HiddenIffLoading(loading: bool)
    ensures Flatten(Inputs(loading)) == if loading then [Join(BaseTokens), "invisible"] else [Join(BaseTokens)]
    ensures "invisible" in Split(Cn(Inputs(loading))) <==> loading
  {
    var w := Inputs(loading);
    assert Flatten(w) == Pieces(w[0]) + Pieces(w[1]) + Flatten([]) by {
      assert w[1..][1..] == [];
    }
    assert IsWord("invisible");
    forall i | 0 <= i < |BaseTokens|
      ensures IsWord(BaseTokens[i])
    {
    }
    TrailingFlag(BaseTokens, "invisible", loading, KeyOf);
  }
}
