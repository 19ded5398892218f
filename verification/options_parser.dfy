/** The option parser of a protocol layer: a list of options is folded,
    head first, into two flags. The force option sets the force flag and the
    disallow option the disallow flag, each inheriting the other flag from
    the rest of the list; the empty option is skipped; a tuple of options is
    spliced into the list in its place. */
module OptionsParser {

  datatype LayerOption =
    | ForceReadUntilDataSplit
    | DisallowReadUntilDataSplit
    | EmptyOption
    | Bundle(members: seq<LayerOption>)

  datatype Flags = Flags(hasForceReadUntilDataSplit: bool, hasDisallowReadUntilDataSplit: bool)

  /** The size of an option list, counting a bundle as one more than its
      members; splicing a bundle in place makes it smaller. */
  function Weight(o: LayerOption): (n: nat)
    ensures n >= 1
    decreases o, 1
  {
    match o
    case Bundle(ms) => 1 + TotalWeight(ms)
    case _ => 1
  }

  function TotalWeight(os: seq<LayerOption>): (n: nat)
    decreases os, 0
  {
    if |os| == 0 then 0 else Weight(os[0]) + TotalWeight(os[1..])
  }

  lemma {:induction false} TotalWeightAppend(a: seq<LayerOption>, b: seq<LayerOption>)
    ensures TotalWeight(a + b) == TotalWeight(a) + TotalWeight(b)
  {
    if |a| > 0 {
      assert (a + b)[1..] == a[1..] + b;
      TotalWeightAppend(a[1..], b);
    } else {
      assert a + b == b;
    }
  }

  /** `protocol_layer_base_options_parser<TOptions...>`, one case per
      specialisation. */
  function Parse(os: seq<LayerOption>): (r: Flags)
    decreases TotalWeight(os)
  {
    if |os| == 0 then Flags(false, false)
    else match os[0]
      case ForceReadUntilDataSplit => Parse(os[1..]).(hasForceReadUntilDataSplit := true)
      case DisallowReadUntilDataSplit => Parse(os[1..]).(hasDisallowReadUntilDataSplit := true)
      case EmptyOption => Parse(os[1..])
      case Bundle(ms) =>
        TotalWeightAppend(ms, os[1..]);
        assert TotalWeight(os) == Weight(Bundle(ms)) + TotalWeight(os[1..]);
        Parse(ms + os[1..])
  }

  // -- the reference: the flattened list of plain options --------------------

  function Flatten(os: seq<LayerOption>): (r: seq<LayerOption>)
    ensures forall i :: 0 <= i < |r| ==> !r[i].Bundle?
  {
    if |os| == 0 then []
    else match os[0]
      case Bundle(ms) => Flatten(ms) + Flatten(os[1..])
      case o => [o] + Flatten(os[1..])
  }

  lemma {:induction false} FlattenAppend(a: seq<LayerOption>, b: seq<LayerOption>)
    ensures Flatten(a + b) == Flatten(a) + Flatten(b)
  {
    if |a| > 0 {
      assert (a + b)[0] == a[0];
      assert (a + b)[1..] == a[1..] + b;
      FlattenAppend(a[1..], b);
    } else {
      assert a + b == b;
    }
  }

  /** Each flag is set iff its option occurs anywhere in the list, at any
      depth of bundling. */
  lemma {:induction false} FlagsAreMembership(os: seq<LayerOption>)
    ensures Parse(os).hasForceReadUntilDataSplit <==> ForceReadUntilDataSplit in Flatten(os)
    ensures Parse(os).hasDisallowReadUntilDataSplit <==> DisallowReadUntilDataSplit in Flatten(os)
    decreases TotalWeight(os)
  {
    if |os| > 0 {
      match os[0]
      case Bundle(ms) =>
        TotalWeightAppend(ms, os[1..]);
        assert TotalWeight(os) == Weight(Bundle(ms)) + TotalWeight(os[1..]);
        FlattenAppend(ms, os[1..]);
        FlagsAreMembership(ms + os[1..]);
      case _ =>
        FlagsAreMembership(os[1..]);
    }
  }

  /** An empty list sets neither flag. */
  lemma EmptyListNoFlags()
    ensures Parse([]) == Flags(false, false)
  {
  }

  /** Removing an empty option, or splicing a bundle's members in its place,
      does not change the result. */
  lemma EditsThatChangeNothing(pre: seq<LayerOption>, ms: seq<LayerOption>, post: seq<LayerOption>)
    ensures Parse(pre + [EmptyOption] + post) == Parse(pre + post)
    ensures Parse(pre + [Bundle(ms)] + post) == Parse(pre + ms + post)
  {
    FlattenAppend(pre + [EmptyOption], post);
    FlattenAppend(pre, [EmptyOption]);
    FlattenAppend(pre, post);
    assert Flatten([EmptyOption]) == [EmptyOption] + Flatten([]);
    FlagsAreMembership(pre + [EmptyOption] + post);
    FlagsAreMembership(pre + post);

    FlattenAppend(pre + [Bundle(ms)], post);
    FlattenAppend(pre, [Bundle(ms)]);
    FlattenAppend(pre + ms, post);
    FlattenAppend(pre, ms);
    assert Flatten([Bundle(ms)]) == Flatten(ms) + Flatten([]);
    FlagsAreMembership(pre + [Bundle(ms)] + post);
    FlagsAreMembership(pre + ms + post);
  }
}
