/** The Whisper tensor schema for any number of layers, the check of a header against it, and
    the check that no two of its names meet after rewriting. */
module WeightSchema {

  import opened WeightLayout
  import opened WeightNames
  import opened Wrappers

  datatype Architecture = Architecture(
    mels: nat,
    audioState: nat,
    audioLayers: nat,
    vocab: nat,
    textContext: nat,
    textHeads: nat,
    textLayers: nat)

  const ALIGNMENT := "alignment_heads"

  // ---- what the schema holds -----------------------------------------------------------------

  /** The names of a model with `a` encoder and `t` decoder layers. */
  predicate Listed(n: Name, a: nat, t: nat) {
    match n
    case Positional => true
    case Global(stem, leaf) => stem == TokenEmbedding ==> leaf == Weight
    case Block(decoder, layer, part, leaf) =>
      && layer < (if decoder then t else a)
      && (part.Proj? && part.projection == Key ==> leaf == Weight)
      && (!decoder ==> part != CrossNorm && !(part.Proj? && part.attention == Cross))
  }

  predicate InSchema(n: Name, arch: Architecture) {
    Listed(n, arch.audioLayers, arch.textLayers)
  }

  function Shape(n: Name, arch: Architecture): seq<nat> {
    var d := arch.audioState;
    match n
    case Positional => [arch.textContext, d]
    case Global(Conv1, Weight) => [d, 3, arch.mels]
    case Global(Conv2, Weight) => [d, 3, d]
    case Global(TokenEmbedding, _) => [arch.vocab, d]
    case Global(_, _) => [d]
    case Block(_, _, Proj(_, _), Weight) => [d, d]
    case Block(_, _, Mlp1, Weight) => [4 * d, d]
    case Block(_, _, Mlp1, Bias) => [4 * d]
    case Block(_, _, Mlp2, Weight) => [d, 4 * d]
    case Block(_, _, _, _) => [d]
  }

  // ---- building it ---------------------------------------------------------------------------

  /** The names of one part of one block. */
  predicate OfPart(n: Name, decoder: bool, layer: nat, part: Part) {
    n.Block? && n.decoder == decoder && n.layer == layer && n.part == part
  }

  predicate OfAttention(n: Name, decoder: bool, layer: nat, a: Attention) {
    && n.Block? && n.decoder == decoder && n.layer == layer && n.part.Proj? && n.part.attention == a
    && (n.part.projection == Key ==> n.leaf == Weight)
  }

  predicate OfTail(n: Name, decoder: bool, layer: nat) {
    n.Block? && n.decoder == decoder && n.layer == layer && !n.part.Proj? && n.part != CrossNorm
  }

  lemma Product1(a: nat)
    ensures Product([a]) == a
  {
    assert [a][..0] == [];
  }

  lemma Product2(a: nat, b: nat)
    ensures Product([a, b]) == a * b
  {
    Product1(a);
    assert [a, b][..1] == [a];
  }

  lemma Product3(a: nat, b: nat, c: nat)
    ensures Product([a, b, c]) == a * b * c
  {
    Product2(a, b);
    assert [a, b, c][..2] == [a, b];
  }

  // How many elements the parts of a model have.

  function AttentionElements(d: nat): nat {
    4 * (d * d) + 3 * d
  }

  function TailElements(d: nat): nat {
    8 * (d * d) + 9 * d
  }

  function GlobalElements(arch: Architecture): nat {
    var d := arch.audioState;
    3 * (d * arch.mels) + arch.vocab * d + arch.textContext * d + 3 * (d * d) + 6 * d
  }

  function EncoderElements(d: nat): nat {
    12 * (d * d) + 12 * d
  }

  function DecoderElements(d: nat): nat {
    16 * (d * d) + 17 * d
  }

  function ElementTotal(arch: Architecture): nat {
    GlobalElements(arch)
    + arch.audioLayers * EncoderElements(arch.audioState)
    + arch.textLayers * DecoderElements(arch.audioState)
  }

  /** How many elements the tensors of a map have together. */
  ghost function Elements(m: map<string, seq<nat>>): nat {
    if m == map[] then 0
    else
      var name :| name in m;
      Product(m[name]) + Elements(m - {name})
  }

  lemma {:induction false} ElementsWithout(m: map<string, seq<nat>>, name: string)
    requires name in m
    ensures Elements(m) == Product(m[name]) + Elements(m - {name})
    decreases |m|
  {
    hide Product;
    var picked :| picked in m && Elements(m) == Product(m[picked]) + Elements(m - {picked});
    if picked != name {
      ElementsWithout(m - {picked}, name);
      ElementsWithout(m - {name}, picked);
      assert m - {picked} - {name} == m - {name} - {picked};
    }
  }

  lemma ElementsWith(m: map<string, seq<nat>>, name: string, shape: seq<nat>)
    requires name !in m
    ensures Elements(m[name := shape]) == Elements(m) + Product(shape)
  {
    hide Product;
    ElementsWithout(m[name := shape], name);
    assert m[name := shape] - {name} == m;
  }

  /** The map under construction; `names` and `elements` are the ghost record of what went in. */
  class Schema {
    const arch: Architecture
    var out: map<string, seq<nat>>
    ghost var names: set<Name>
    ghost var elements: nat

    ghost predicate Valid()
      reads this
    {
      && (forall n :: n in names ==> Text(n) in out && out[Text(n)] == Shape(n, arch))
      && (forall name :: name in out ==> exists n :: n in names && Text(n) == name)
      && |out| == |names| && elements == Elements(out)
    }

    constructor (arch: Architecture)
      ensures Valid() && names == {} && elements == 0 && this.arch == arch
    {
      this.arch, out, names, elements := arch, map[], {}, 0;
    }

    method Add(n: Name, shape: seq<nat>)
      requires Valid() && n !in names && shape == Shape(n, arch)
      modifies this
      ensures Valid() && names == old(names) + {n} && |names| == old(|names|) + 1
      ensures elements == old(elements) + Product(shape)
    {
      hide Text, Shape, Product, Elements;
      assert Text(n) !in out by {
        if Text(n) in out {
          var m :| m in names && Text(m) == Text(n);
          NamesAreDistinct(m, n);
        }
      }
      ghost var before := out;
      out := out[Text(n) := shape];
      names := names + {n};
      elements := elements + Product(shape);
      ElementsWith(before, Text(n), shape);
      GrowsByOne(before, Text(n), shape);
      forall m | m in names ensures Text(m) in out && out[Text(m)] == Shape(m, arch) {
        if Text(m) == Text(n) { NamesAreDistinct(m, n); }
      }
      forall name | name in out ensures exists m :: m in names && Text(m) == name {
        if name == Text(n) { assert n in names; }
      }
    }

    /** A weight and a bias. */
    method AddPart(decoder: bool, layer: nat, part: Part, weight: seq<nat>, bias: seq<nat>)
      requires Valid() && forall n :: OfPart(n, decoder, layer, part) ==> n !in names
      requires weight == Shape(Block(decoder, layer, part, Weight), arch)
      requires bias == Shape(Block(decoder, layer, part, Bias), arch)
      modifies this
      ensures Valid() && |names| == old(|names|) + 2
      ensures elements == old(elements) + Product(weight) + Product(bias)
      ensures forall n :: n in names <==> n in old(names) || OfPart(n, decoder, layer, part)
    {
      hide Valid, Text, Shape, Product;
      Add(Block(decoder, layer, part, Weight), weight);
      Add(Block(decoder, layer, part, Bias), bias);
      forall n: Name | OfPart(n, decoder, layer, part)
        ensures n == Block(decoder, layer, part, Weight) || n == Block(decoder, layer, part, Bias)
      {
        assert n.leaf == Weight || n.leaf == Bias;
      }
    }

    method AddGlobal(stem: Stem, weight: seq<nat>, bias: seq<nat>)
      requires Valid() && forall n: Name :: n.Global? && n.stem == stem ==> n !in names
      requires weight == Shape(Global(stem, Weight), arch)
      requires bias == Shape(Global(stem, Bias), arch)
      modifies this
      ensures Valid() && |names| == old(|names|) + 2
      ensures elements == old(elements) + Product(weight) + Product(bias)
      ensures forall n :: n in names <==> n in old(names) || (n.Global? && n.stem == stem)
    {
      hide Valid, Text, Shape, Product;
      Add(Global(stem, Weight), weight);
      Add(Global(stem, Bias), bias);
      forall n: Name | n.Global? && n.stem == stem
        ensures n == Global(stem, Weight) || n == Global(stem, Bias)
      {
        assert n.leaf == Weight || n.leaf == Bias;
      }
    }

    method AddAttention(decoder: bool, layer: nat, a: Attention)
      requires Valid() && forall n :: OfAttention(n, decoder, layer, a) ==> n !in names
      requires Block(decoder, layer, Proj(a, Key), Bias) !in names
      modifies this
      ensures Valid() && |names| == old(|names|) + 7
      ensures elements == old(elements) + AttentionElements(arch.audioState)
      ensures forall n :: n in names <==> n in old(names) || OfAttention(n, decoder, layer, a)
    {
      hide Valid, Text, Product;
      var d := arch.audioState;
      Product1(d);
      Product2(d, d);
      Add(Block(decoder, layer, Proj(a, Key), Weight), [d, d]);
      AddPart(decoder, layer, Proj(a, Query), [d, d], [d]);
      AddPart(decoder, layer, Proj(a, Projection.Value), [d, d], [d]);
      AddPart(decoder, layer, Proj(a, Out), [d, d], [d]);
    }

    method AddBlockTail(decoder: bool, layer: nat, ff: nat)
      requires Valid() && ff == 4 * arch.audioState && forall n :: OfTail(n, decoder, layer) ==> n !in names
      modifies this
      ensures Valid() && |names| == old(|names|) + 8
      ensures elements == old(elements) + TailElements(arch.audioState)
      ensures forall n :: n in names <==> n in old(names) || OfTail(n, decoder, layer)
    {
      hide Valid, Text, Product;
      var d := arch.audioState;
      Product1(d);
      Product1(ff);
      Product2(ff, d);
      Product2(d, ff);
      AddPart(decoder, layer, AttentionNorm, [d], [d]);
      AddPart(decoder, layer, Mlp1, [ff, d], [ff]);
      AddPart(decoder, layer, Mlp2, [d, ff], [d]);
      AddPart(decoder, layer, MlpNorm, [d], [d]);
    }

    method AddEncoderGlobals()
      requires Valid() && names == {} && elements == 0
      modifies this
      ensures Valid() && |names| == 6
      ensures forall n :: n in names <==> n.Global? && n.stem in {Conv1, Conv2, LnPost}
      ensures var d := arch.audioState; elements == 3 * (d * arch.mels) + 3 * (d * d) + 4 * d
    {
      hide Valid, Text, Product;
      var d := arch.audioState;
      Product1(d);
      Product3(d, 3, arch.mels);
      Product3(d, 3, d);
      AddGlobal(Conv1, [d, 3, arch.mels], [d]);
      AddGlobal(Conv2, [d, 3, d], [d]);
      AddGlobal(LnPost, [d], [d]);
    }

    method AddGlobals()
      requires Valid() && names == {} && elements == 0
      modifies this
      ensures Valid() && |names| == 10 && forall n :: n in names <==> Listed(n, 0, 0)
      ensures elements == GlobalElements(arch)
    {
      hide Valid, Text, Product;
      var d := arch.audioState;
      Product1(d);
      Product2(arch.vocab, d);
      Product2(arch.textContext, d);
      AddEncoderGlobals();
      Add(Global(TokenEmbedding, Weight), [arch.vocab, d]);
      Add(Positional, [arch.textContext, d]);
      AddGlobal(DecoderNorm, [d], [d]);
    }

    method AddEncoderLayer(layer: nat)
      requires Valid() && forall n :: n in names <==> Listed(n, layer, 0)
      modifies this
      ensures Valid() && |names| == old(|names|) + 15
      ensures elements == old(elements) + EncoderElements(arch.audioState)
      ensures forall n :: n in names <==> Listed(n, layer + 1, 0)
    {
      hide Valid, Text, Shape;
      AddAttention(false, layer, Itself);
      AddBlockTail(false, layer, 4 * arch.audioState);
    }

    method AddDecoderLayer(layer: nat)
      requires Valid() && forall n :: n in names <==> Listed(n, arch.audioLayers, layer)
      modifies this
      ensures Valid() && |names| == old(|names|) + 24
      ensures elements == old(elements) + DecoderElements(arch.audioState)
      ensures forall n :: n in names <==> Listed(n, arch.audioLayers, layer + 1)
    {
      hide Valid, Text, Product;
      Product1(arch.audioState);
      AddAttention(true, layer, Itself);
      AddAttention(true, layer, Cross);
      AddPart(true, layer, CrossNorm, [arch.audioState], [arch.audioState]);
      AddBlockTail(true, layer, 4 * arch.audioState);
    }
  }

  lemma GrowsByOne(m: map<string, seq<nat>>, k: string, v: seq<nat>)
    requires k !in m
    ensures |m[k := v]| == |m| + 1
  {
    assert m[k := v].Keys == m.Keys + {k};
  }

  lemma OneLayerMore(layers: nat, elements: nat)
    ensures (layers + 1) * elements == layers * elements + elements
  {
  }

  // ---- the schema spelled out ------------------------------------------------------------------

  ghost predicate Has(m: map<string, seq<nat>>, name: string, shape: seq<nat>) {
    name in m && m[name] == shape
  }

  ghost predicate HasLinear(m: map<string, seq<nat>>, prefix: string, weight: seq<nat>, bias: seq<nat>) {
    Has(m, prefix + "weight", weight) && Has(m, prefix + "bias", bias)
  }

  /** Four square projections, all but the key with a bias. */
  ghost predicate HasAttention(m: map<string, seq<nat>>, front: string, kind: string, d: nat) {
    && Has(m, front + (kind + "." + "key.") + "weight", [d, d])
    && HasLinear(m, front + (kind + "." + "query."), [d, d], [d])
    && HasLinear(m, front + (kind + "." + "value."), [d, d], [d])
    && HasLinear(m, front + (kind + "." + "out."), [d, d], [d])
  }

  /** One layer: its feed-forward part goes from `d` to `4 * d` values and back. */
  ghost predicate HasBlock(m: map<string, seq<nat>>, front: string, d: nat) {
    && HasAttention(m, front, ".attn", d)
    && HasLinear(m, front + ".attn_ln.", [d], [d])
    && HasLinear(m, front + ".mlp1.", [4 * d, d], [4 * d])
    && HasLinear(m, front + ".mlp2.", [d, 4 * d], [d])
    && HasLinear(m, front + ".mlp_ln.", [d], [d])
  }

  ghost predicate HasCross(m: map<string, seq<nat>>, front: string, d: nat) {
    HasAttention(m, front, ".cross_attn", d) && HasLinear(m, front + ("." + "cross_attn_ln" + "."), [d], [d])
  }

  ghost predicate HasGlobals(m: map<string, seq<nat>>, arch: Architecture) {
    var d := arch.audioState;
    && HasLinear(m, "encoder." + "conv1.", [d, 3, arch.mels], [d])
    && HasLinear(m, "encoder." + "conv2.", [d, 3, d], [d])
    && HasLinear(m, "encoder." + "ln_post.", [d], [d])
    && Has(m, "decoder." + "token_embedding" + "." + "weight", [arch.vocab, d])
    && Has(m, "decoder." + "positional" + "_embedding", [arch.textContext, d])
    && HasLinear(m, "decoder." + "ln.", [d], [d])
  }

  /** Every tensor of the model under its full name, for every number of layers. */
  ghost predicate Spelled(m: map<string, seq<nat>>, arch: Architecture) {
    var d := arch.audioState;
    && HasGlobals(m, arch)
    && (forall layer: nat :: layer < arch.audioLayers ==>
          HasBlock(m, "encoder." + "blocks" + "." + Decimal(layer), d))
    && (forall layer: nat :: layer < arch.textLayers ==>
          HasBlock(m, "decoder." + "blocks" + "." + Decimal(layer), d)
          && HasCross(m, "decoder." + "blocks" + "." + Decimal(layer), d))
  }

  ghost predicate Shaped(m: map<string, seq<nat>>, n: Name, arch: Architecture) {
    Has(m, Text(n), Shape(n, arch))
  }

  lemma LinearIsSpelled(m: map<string, seq<nat>>, arch: Architecture, decoder: bool, layer: nat, part: Part)
    requires Shaped(m, Block(decoder, layer, part, Weight), arch)
    requires Shaped(m, Block(decoder, layer, part, Bias), arch)
    ensures HasLinear(m, SideText(decoder) + "blocks" + "." + Decimal(layer) + PartText(part),
                      Shape(Block(decoder, layer, part, Weight), arch), Shape(Block(decoder, layer, part, Bias), arch))
  {
    hide PartText, SideText, Decimal, Shape;
  }

  lemma AttentionIsSpelled(m: map<string, seq<nat>>, arch: Architecture, decoder: bool, layer: nat, a: Attention)
    requires forall n :: InSchema(n, arch) ==> Shaped(m, n, arch)
    requires layer < (if decoder then arch.textLayers else arch.audioLayers) && (a == Cross ==> decoder)
    ensures HasAttention(m, SideText(decoder) + "blocks" + "." + Decimal(layer),
                         if a == Cross then ".cross_attn" else ".attn", arch.audioState)
  {
    hide Shaped, HasLinear, SideText, Decimal;
    LinearIsSpelled(m, arch, decoder, layer, Proj(a, Query));
    LinearIsSpelled(m, arch, decoder, layer, Proj(a, Projection.Value));
    LinearIsSpelled(m, arch, decoder, layer, Proj(a, Out));
    assert Has(m, Text(Block(decoder, layer, Proj(a, Key), Weight)), [arch.audioState, arch.audioState]) by {
      assert Shaped(m, Block(decoder, layer, Proj(a, Key), Weight), arch);
      KeyIsShaped(m, arch, decoder, layer, a);
    }
  }

  lemma KeyIsShaped(m: map<string, seq<nat>>, arch: Architecture, decoder: bool, layer: nat, a: Attention)
    requires Shaped(m, Block(decoder, layer, Proj(a, Key), Weight), arch)
    ensures Has(m, Text(Block(decoder, layer, Proj(a, Key), Weight)), [arch.audioState, arch.audioState])
  {
    hide Text;
  }

  lemma BlockIsSpelled(m: map<string, seq<nat>>, arch: Architecture, decoder: bool, layer: nat)
    requires forall n :: InSchema(n, arch) ==> Shaped(m, n, arch)
    requires layer < (if decoder then arch.textLayers else arch.audioLayers)
    ensures HasBlock(m, SideText(decoder) + "blocks" + "." + Decimal(layer), arch.audioState)
    ensures decoder ==> HasCross(m, SideText(decoder) + "blocks" + "." + Decimal(layer), arch.audioState)
  {
    hide Shaped, HasLinear, HasAttention, SideText, Decimal;
    AttentionIsSpelled(m, arch, decoder, layer, Itself);
    LinearIsSpelled(m, arch, decoder, layer, AttentionNorm);
    LinearIsSpelled(m, arch, decoder, layer, Mlp1);
    LinearIsSpelled(m, arch, decoder, layer, Mlp2);
    LinearIsSpelled(m, arch, decoder, layer, MlpNorm);
    if decoder {
      AttentionIsSpelled(m, arch, decoder, layer, Cross);
      LinearIsSpelled(m, arch, decoder, layer, CrossNorm);
    }
  }

  lemma GlobalsAreSpelled(m: map<string, seq<nat>>, arch: Architecture)
    requires forall n :: InSchema(n, arch) ==> Shaped(m, n, arch)
    ensures HasGlobals(m, arch)
  {
    assert Shaped(m, Positional, arch);
    assert Shaped(m, Global(Conv1, Weight), arch) && Shaped(m, Global(Conv1, Bias), arch);
    assert Shaped(m, Global(Conv2, Weight), arch) && Shaped(m, Global(Conv2, Bias), arch);
    assert Shaped(m, Global(LnPost, Weight), arch) && Shaped(m, Global(LnPost, Bias), arch);
    assert Shaped(m, Global(TokenEmbedding, Weight), arch);
    assert Shaped(m, Global(DecoderNorm, Weight), arch) && Shaped(m, Global(DecoderNorm, Bias), arch);
  }

  /** The names and shapes of the schema are those of the model, one by one. */
  lemma SchemaIsSpelled(m: map<string, seq<nat>>, arch: Architecture)
    requires forall n :: InSchema(n, arch) ==> Text(n) in m && m[Text(n)] == Shape(n, arch)
    ensures Spelled(m, arch)
  {
    forall n | InSchema(n, arch) ensures Shaped(m, n, arch) {
    }
    hide Shaped, HasGlobals, HasBlock, HasCross, Text, Shape, InSchema, Decimal;
    GlobalsAreSpelled(m, arch);
    forall layer: nat | layer < arch.audioLayers
      ensures HasBlock(m, "encoder." + "blocks" + "." + Decimal(layer), arch.audioState)
    {
      BlockIsSpelled(m, arch, false, layer);
    }
    forall layer: nat | layer < arch.textLayers
      ensures HasBlock(m, "decoder." + "blocks" + "." + Decimal(layer), arch.audioState)
              && HasCross(m, "decoder." + "blocks" + "." + Decimal(layer), arch.audioState)
    {
      BlockIsSpelled(m, arch, true, layer);
    }
  }

  /** The expected shapes: exactly the names of the schema, 10 + 15 an encoder layer + 24 a decoder
      layer of them, each with its shape; none when the feed-forward width overflows. */
  method ExpectedShapes(arch: Architecture) returns (shapes: Option<map<string, seq<nat>>>)
    ensures shapes.Some? <==> 4 * arch.audioState < U64
    ensures shapes.Some? ==> |shapes.value| == 10 + 15 * arch.audioLayers + 24 * arch.textLayers
    ensures shapes.Some? ==> Elements(shapes.value) == ElementTotal(arch)
    ensures shapes.Some? ==> forall n :: InSchema(n, arch) ==>
      Text(n) in shapes.value && shapes.value[Text(n)] == Shape(n, arch)
    ensures shapes.Some? ==> forall name :: name in shapes.value ==> exists n :: InSchema(n, arch) && Text(n) == name
  {
    hide Text, Shape, GlobalElements, EncoderElements, DecoderElements, Elements;
    if arch.audioState * 4 >= U64 { return None; }
    var s := new Schema(arch);
    s.AddGlobals();
    for layer := 0 to arch.audioLayers
      invariant s.Valid() && s.arch == arch && |s.names| == 10 + 15 * layer
      invariant s.elements == GlobalElements(arch) + layer * EncoderElements(arch.audioState)
      invariant forall n :: n in s.names <==> Listed(n, layer, 0)
    {
      OneLayerMore(layer, EncoderElements(arch.audioState));
      s.AddEncoderLayer(layer);
    }
    for layer := 0 to arch.textLayers
      invariant s.Valid() && s.arch == arch && |s.names| == 10 + 15 * arch.audioLayers + 24 * layer
      invariant s.elements == GlobalElements(arch) + arch.audioLayers * EncoderElements(arch.audioState)
                              + layer * DecoderElements(arch.audioState)
      invariant forall n :: n in s.names <==> Listed(n, arch.audioLayers, layer)
    {
      OneLayerMore(layer, DecoderElements(arch.audioState));
      s.AddDecoderLayer(layer);
    }
    shapes := Some(s.out);
  }

  // ---- checking a header against it --------------------------------------------------------------

  predicate AlignmentFits(shape: seq<nat>, arch: Architecture) {
    |shape| == 2 && 1 <= shape[0] <= arch.textLayers * arch.textHeads && shape[1] == 2
  }

  /** Exactly the tensors of the schema, each with its shape, and perhaps alignment heads. */
  ghost predicate Fits(tensors: map<string, seq<nat>>, arch: Architecture) {
    && 4 * arch.audioState < U64
    && (ALIGNMENT in tensors ==>
          arch.textLayers * arch.textHeads < U64 && AlignmentFits(tensors[ALIGNMENT], arch))
    && (forall n :: InSchema(n, arch) ==> Text(n) in tensors && tensors[Text(n)] == Shape(n, arch))
    && (forall name :: name in tensors && name != ALIGNMENT ==> exists n :: InSchema(n, arch) && Text(n) == name)
  }

  /** What fits has every tensor of the model, and of alignment heads, if any, between one pair and
      as many as the decoder has heads. */
  lemma FittingIsSpelled(tensors: map<string, seq<nat>>, arch: Architecture)
    requires Fits(tensors, arch)
    ensures Spelled(tensors, arch)
    ensures "alignment_heads" in tensors ==>
      var shape := tensors["alignment_heads"];
      |shape| == 2 && 1 <= shape[0] <= arch.textLayers * arch.textHeads < U64 && shape[1] == 2
  {
    hide Spelled, Text, Shape, InSchema;
    SchemaIsSpelled(tensors, arch);
  }

  /** Heads within their bound may be added to what fits, and no other tensor may. */
  lemma OnlyHeadsMayBeAdded(tensors: map<string, seq<nat>>, arch: Architecture, name: string, shape: seq<nat>)
    requires Fits(tensors, arch) && name !in tensors
    ensures Fits(tensors[name := shape], arch) <==>
      && name == "alignment_heads" && arch.textLayers * arch.textHeads < U64
      && |shape| == 2 && 1 <= shape[0] <= arch.textLayers * arch.textHeads && shape[1] == 2
  {
    hide Text, Shape, InSchema;
    if name == ALIGNMENT {
      forall n | InSchema(n, arch) ensures Text(n) != ALIGNMENT {
        NameIsPlain(n);
      }
      var more := tensors[name := shape];
      forall other | other in more && other != ALIGNMENT ensures exists n :: InSchema(n, arch) && Text(n) == other {
        assert other in tensors;
      }
      assert forall n :: InSchema(n, arch) ==> Text(n) in more && more[Text(n)] == Shape(n, arch);
    } else {
      assert name in tensors[name := shape];
    }
  }

  /** Nothing of what fits may be taken away but the heads, nor given another shape. */
  lemma NothingMayBeMissing(tensors: map<string, seq<nat>>, arch: Architecture, name: string, shape: seq<nat>)
    requires Fits(tensors, arch) && name in tensors && name != "alignment_heads"
    ensures !Fits(tensors - {name}, arch)
    ensures shape != tensors[name] ==> !Fits(tensors[name := shape], arch)
  {
    hide Text, Shape, InSchema;
    var n :| InSchema(n, arch) && Text(n) == name;
  }

  method ValidateShapes(tensors: map<string, seq<nat>>, arch: Architecture) returns (ok: bool)
    ensures ok == Fits(tensors, arch)
  {
    hide Text, Shape, InSchema;
    var expected := ExpectedShapes(arch);
    if expected.None? { return false; }
    if ALIGNMENT in tensors {
      if arch.textLayers * arch.textHeads >= U64 { return false; }
      if !AlignmentFits(tensors[ALIGNMENT], arch) { return false; }
    }
    var left := expected.value.Keys;
    while left != {}
      invariant left <= expected.value.Keys
      invariant forall name :: name in expected.value && name !in left ==>
        name in tensors && tensors[name] == expected.value[name]
    {
      var name :| name in left;
      if name !in tensors || tensors[name] != expected.value[name] { return false; }
      left := left - {name};
    }
    if name :| name in tensors.Keys && name != ALIGNMENT && name !in expected.value { return false; }
    return true;
  }

  /** Two tensors the runtime would take for one. */
  ghost predicate Collide(a: string, b: string) {
    a != ALIGNMENT && b != ALIGNMENT && MapName(a) == MapName(b)
  }

  method ValidateUnique(names: seq<string>) returns (ok: bool)
    ensures ok <==> forall i, j :: 0 <= i < j < |names| ==> !Collide(names[i], names[j])
  {
    hide MapName;
    var sources: map<string, string> := map[];
    for i := 0 to |names|
      invariant forall j, k :: 0 <= j < k < i ==> !Collide(names[j], names[k])
      invariant forall m :: m in sources ==> exists j :: 0 <= j < i && names[j] != ALIGNMENT && MapName(names[j]) == m
      invariant forall j :: 0 <= j < i && names[j] != ALIGNMENT ==> MapName(names[j]) in sources
    {
      if names[i] != ALIGNMENT {
        var mapped := MapName(names[i]);
        if mapped in sources {
          var j :| 0 <= j < i && names[j] != ALIGNMENT && MapName(names[j]) == mapped;
          assert Collide(names[j], names[i]);
          return false;
        }
        sources := sources[mapped := names[i]];
      }
    }
    return true;
  }

  /** Names of an accepted header never collide, so the uniqueness check refuses nothing more. */
  lemma FittingNamesNeverCollide(tensors: map<string, seq<nat>>, arch: Architecture, a: string, b: string)
    requires Fits(tensors, arch) && a in tensors && b in tensors && a != b
    ensures !Collide(a, b)
  {
    hide Text, MapName, Shape;
    if Collide(a, b) {
      var n :| InSchema(n, arch) && Text(n) == a;
      var m :| InSchema(m, arch) && Text(m) == b;
      MappedNamesAreDistinct(n, m);
    }
  }

  /** The header as a map from tensor name to shape. */
  ghost function Table(tensors: seq<Tensor>): map<string, seq<nat>>
    requires forall i, j :: 0 <= i < j < |tensors| ==> tensors[i].name != tensors[j].name
  {
    map i | 0 <= i < |tensors| :: tensors[i].name := tensors[i].shape
  }

  lemma FittingIsUnique(tensors: seq<Tensor>, arch: Architecture, names: seq<string>)
    requires forall i, j :: 0 <= i < j < |tensors| ==> tensors[i].name != tensors[j].name
    requires Fits(Table(tensors), arch)
    requires |names| == |tensors| && forall i :: 0 <= i < |names| ==> names[i] == tensors[i].name
    ensures forall i, j :: 0 <= i < j < |names| ==> !Collide(names[i], names[j])
  {
    hide Fits, Collide;
    forall i, j | 0 <= i < j < |names| ensures !Collide(names[i], names[j]) {
      FittingNamesNeverCollide(Table(tensors), arch, names[i], names[j]);
    }
  }

  /** The whole check of a weights file for an architecture. It accepts exactly the tilings of the
      data that fit the schema: the uniqueness check in the middle decides nothing. */
  method Validate(tensors: seq<Tensor>, dataLen: nat, arch: Architecture) returns (ok: bool)
    requires forall i :: 0 <= i < |tensors| ==> Parsed(tensors[i])
    requires forall i, j :: 0 <= i < j < |tensors| ==> tensors[i].name != tensors[j].name
    ensures ok <==> Acceptable(tensors, dataLen) && Fits(Table(tensors), arch)
  {
    hide Acceptable, Fits, Collide, Parsed;
    var shapes := ReadShapes(tensors, dataLen);
    if shapes.None? { return false; }
    assert shapes.value == Table(tensors);
    var names := seq(|tensors|, i requires 0 <= i < |tensors| => tensors[i].name);
    var unique := ValidateUnique(names);
    if Fits(Table(tensors), arch) { FittingIsUnique(tensors, arch, names); }
    if !unique { return false; }
    ok := ValidateShapes(shapes.value, arch);
  }

  // ---- the generated file ------------------------------------------------------------------------

  /** No tensor of the schema is empty. */
  predicate Substantial(arch: Architecture) {
    arch.audioState > 0 && arch.mels > 0 && arch.vocab > 0 && arch.textContext > 0
  }

  lemma Positive2(a: nat, b: nat)
    ensures a * b > 0 <==> a > 0 && b > 0
  {
  }

  lemma ShapeIsPositive(n: Name, arch: Architecture)
    requires Substantial(arch)
    ensures Product(Shape(n, arch)) > 0
  {
    var s := Shape(n, arch);
    ShapeDimensions(n, arch);
    hide Product, Shape;
    if |s| == 1 {
      Product1(s[0]);
      assert s == [s[0]];
    } else if |s| == 2 {
      Product2(s[0], s[1]);
      Positive2(s[0], s[1]);
      assert s == [s[0], s[1]];
    } else {
      Product3(s[0], s[1], s[2]);
      Positive2(s[0], s[1]);
      Positive2(s[0] * s[1], s[2]);
      assert s == [s[0], s[1], s[2]];
    }
  }

  lemma ShapeDimensions(n: Name, arch: Architecture)
    requires Substantial(arch)
    ensures 1 <= |Shape(n, arch)| <= 3 && forall i :: 0 <= i < |Shape(n, arch)| ==> Shape(n, arch)[i] > 0
  {
  }

  /** A zero dimension makes one of the tensors every model has empty. */
  lemma EmptyTensorExists(arch: Architecture) returns (n: Name)
    requires !Substantial(arch)
    ensures InSchema(n, arch) && Product(Shape(n, arch)) == 0
  {
    var d := arch.audioState;
    Product2(arch.textContext, d);
    Product2(arch.vocab, d);
    Product3(d, 3, arch.mels);
    Positive2(arch.textContext, d);
    Positive2(arch.vocab, d);
    Positive2(d * 3, arch.mels);
    hide Product;
    n := if d == 0 || arch.textContext == 0 then Positional
         else if arch.vocab == 0 then Global(TokenEmbedding, Weight) else Global(Conv1, Weight);
  }

  lemma NameIsPlain(n: Name)
    ensures PlainName(Text(n))
  {
    TextEnds(n);
    hide Text;
    assert ALIGNMENT[0] == 'a';
    EndsElse(Text(n), ".scales");
    EndsElse(Text(n), ".biases");
  }

  lemma EndsElse(s: string, suffix: string)
    requires |s| >= 2 && |suffix| >= 2 && s[|s| - 2] != suffix[|suffix| - 2]
    ensures !EndsWith(s, suffix)
  {
    assert |suffix| <= |s| ==> s[|s| - |suffix|..][|suffix| - 2] == s[|s| - 2];
  }

  lemma TextEnds(n: Name)
    ensures |Text(n)| >= 2 && Text(n)[0] in "ed" && Text(n)[|Text(n)| - 2] in "han"
  {
    if n != Positional {
      var leaf := LeafText(n.leaf);
      assert leaf[|leaf| - 2] in "ha";
      if n.Global? { StemEnds(n.stem); }
      hide Decimal, PartText, LeafText;
    }
  }

  lemma LaidOutNames(fields: seq<Field>, tensors: seq<Tensor>, to: nat)
    requires LaidOut(fields, tensors, 0, to)
    ensures |tensors| == |fields|
    ensures forall i :: 0 <= i < |fields| ==>
      tensors[i].name == fields[i].name && tensors[i].shape == fields[i].shape
  {
  }

  ghost predicate Lists(arch: Architecture, expected: map<string, seq<nat>>, fields: seq<Field>) {
    && 4 * arch.audioState < U64
    && (forall n :: InSchema(n, arch) ==> Text(n) in expected && expected[Text(n)] == Shape(n, arch))
    && (forall name :: name in expected ==> exists n :: InSchema(n, arch) && Text(n) == name)
    && (forall i :: 0 <= i < |fields| ==> fields[i].name in expected && fields[i].shape == expected[fields[i].name])
    && (forall i, j :: 0 <= i < j < |fields| ==> fields[i].name != fields[j].name)
    && (forall name :: name in expected ==> Names(fields, name))
  }

  lemma GeneratedFits(arch: Architecture, expected: map<string, seq<nat>>, fields: seq<Field>, tensors: seq<Tensor>)
    requires Lists(arch, expected, fields) && |tensors| == |fields|
    requires forall i :: 0 <= i < |fields| ==>
      tensors[i].name == fields[i].name && tensors[i].shape == fields[i].shape
    ensures Fits(Table(tensors), arch)
  {
    TableIsExpected(arch, expected, fields, tensors);
    hide Text, Shape, InSchema, Table;
    if ALIGNMENT in expected {
      var n :| InSchema(n, arch) && Text(n) == ALIGNMENT;
      NameIsPlain(n);
      assert false;
    }
  }

  lemma TableIsExpected(arch: Architecture, expected: map<string, seq<nat>>, fields: seq<Field>, tensors: seq<Tensor>)
    requires Lists(arch, expected, fields) && |tensors| == |fields|
    requires forall i :: 0 <= i < |fields| ==>
      tensors[i].name == fields[i].name && tensors[i].shape == fields[i].shape
    ensures Table(tensors) == expected
  {
    hide Text, Shape, InSchema;
    var table := Table(tensors);
    forall name | name in expected ensures name in table && table[name] == expected[name] {
      var i :| 0 <= i < |fields| && fields[i].name == name;
      assert tensors[i].name == name;
    }
  }

  lemma GeneratedIsFull(arch: Architecture, expected: map<string, seq<nat>>, fields: seq<Field>)
    requires Lists(arch, expected, fields)
    ensures (fields != [] && forall i :: 0 <= i < |fields| ==> Product(fields[i].shape) > 0) <==> Substantial(arch)
  {
    hide Text, Shape, Product;
    if Substantial(arch) {
      forall i | 0 <= i < |fields| ensures Product(fields[i].shape) > 0 {
        var n :| InSchema(n, arch) && Text(n) == fields[i].name;
        ShapeIsPositive(n, arch);
      }
      assert InSchema(Positional, arch);
      assert Text(Positional) in expected;
    } else {
      var n := EmptyTensorExists(arch);
      var i :| 0 <= i < |fields| && fields[i].name == Text(n);
      assert Product(fields[i].shape) == 0;
    }
  }

  lemma NothingListed()
    ensures Elements(map[]) == 0 && Payload([]) == 0
  {
  }

  lemma PayloadOneMore(fields: seq<Field>, f: Field)
    ensures Payload(fields + [f]) == Payload(fields) + 2 * Product(f.shape)
  {
    assert (fields + [f])[..|fields|] == fields;
  }

  ghost predicate Names(fields: seq<Field>, name: string) {
    exists i :: 0 <= i < |fields| && fields[i].name == name
  }

  lemma NamedOneMore(fields: seq<Field>, f: Field)
    ensures forall name :: Names(fields + [f], name) <==> Names(fields, name) || name == f.name
  {
    forall name ensures Names(fields + [f], name) <==> Names(fields, name) || name == f.name {
      assert (fields + [f])[|fields|] == f;
      if Names(fields, name) {
        var i :| 0 <= i < |fields| && fields[i].name == name;
        assert (fields + [f])[i].name == name;
      }
    }
  }

  /** The fields of the schema, each once. */
  method FieldsOf(expected: map<string, seq<nat>>) returns (fields: seq<Field>)
    ensures forall i :: 0 <= i < |fields| ==> fields[i].name in expected && fields[i].shape == expected[fields[i].name]
    ensures forall i, j :: 0 <= i < j < |fields| ==> fields[i].name != fields[j].name
    ensures forall name :: name in expected ==> Names(fields, name)
    ensures Payload(fields) == 2 * Elements(expected)
  {
    hide Product, Elements, Payload, Names;
    fields := [];
    var left := expected;
    NothingListed();
    while left.Keys != {}
      invariant left.Keys <= expected.Keys && forall name :: name in left ==> left[name] == expected[name]
      invariant Payload(fields) + 2 * Elements(left) == 2 * Elements(expected)
      decreases left.Keys
      invariant forall i :: 0 <= i < |fields| ==> fields[i].name in expected && fields[i].name !in left
      invariant forall i :: 0 <= i < |fields| ==> fields[i].shape == expected[fields[i].name]
      invariant forall i, j :: 0 <= i < j < |fields| ==> fields[i].name != fields[j].name
      invariant forall name :: name in expected && name !in left ==> Names(fields, name)
    {
      var name :| name in left;
      ElementsWithout(left, name);
      PayloadOneMore(fields, Field(name, expected[name]));
      NamedOneMore(fields, Field(name, expected[name]));
      fields := fields + [Field(name, expected[name])];
      left := left - {name};
    }
  }

  /** The numbers of an architecture are machine words. */
  predicate MachineWords(arch: Architecture) {
    && arch.mels < U64 && arch.audioState < U64 && arch.audioLayers < U64 && arch.vocab < U64
    && arch.textContext < U64 && arch.textHeads < U64 && arch.textLayers < U64
  }

  lemma ShapeIsCountable(n: Name, arch: Architecture)
    requires MachineWords(arch) && 4 * arch.audioState < U64 && Product(Shape(n, arch)) < U64
    ensures Countable(Shape(n, arch))
  {
    var s := Shape(n, arch);
    hide Product, MachineWords;
    forall i | 0 <= i <= |s| ensures Product(s[..i]) < U64 {
      if i == 0 {
        NoDimensions();
        assert s[..0] == [];
      } else if i == |s| {
        assert s[..i] == s;
      } else if i == 1 {
        Product1(s[0]);
        FirstDimension(n, arch);
        assert s[..1] == [s[0]];
      } else {
        Product2(s[0], s[1]);
        assert s[..2] == [s[0], s[1]] && s[0] * s[1] == 3 * arch.audioState;
      }
    }
  }

  lemma NoDimensions()
    ensures Product([]) == 1
  {
  }

  lemma FirstDimension(n: Name, arch: Architecture)
    requires MachineWords(arch) && 4 * arch.audioState < U64
    ensures |Shape(n, arch)| > 0 && Shape(n, arch)[0] < U64
  {
  }

  lemma FieldsAreWritable(arch: Architecture, expected: map<string, seq<nat>>, fields: seq<Field>)
    requires Lists(arch, expected, fields) && MachineWords(arch)
    ensures Writable(fields) <==> Payload(fields) < U64
  {
    hide Text, Shape, InSchema, Product, Countable, MachineWords;
    if Payload(fields) < U64 {
      forall i | 0 <= i < |fields| ensures Countable(fields[i].shape) {
        PayloadGrows(fields, i);
        var n :| InSchema(n, arch) && Text(n) == fields[i].name;
        ShapeIsCountable(n, arch);
      }
    }
  }

  /** Write a file of the schema. One is written exactly when its feed-forward width and its payload
      fit in 64 bits, and it passes the whole check exactly when no tensor is empty. */
  method Generate(arch: Architecture) returns (tensors: Option<seq<Tensor>>, dataLen: nat)
    requires MachineWords(arch)
    ensures tensors.Some? <==> 4 * arch.audioState < U64 && 2 * ElementTotal(arch) < U64
    ensures tensors.Some? ==> dataLen == 2 * ElementTotal(arch)
    ensures tensors.Some? ==>
      forall i, j :: 0 <= i < j < |tensors.value| ==> tensors.value[i].name != tensors.value[j].name
    ensures tensors.Some? ==>
      (Acceptable(tensors.value, dataLen) && Fits(Table(tensors.value), arch) <==> Substantial(arch))
  {
    hide Text, Shape, InSchema, PlainName, Acceptable, Fits, LaidOut, Product, Payload;
    hide Elements, ElementTotal, Writable;
    var expected := ExpectedShapes(arch);
    if expected.None? { return None, 0; }
    var fields := FieldsOf(expected.value);
    assert Lists(arch, expected.value, fields);
    FieldsArePlain(arch, expected.value, fields);
    GeneratedIsFull(arch, expected.value, fields);
    FieldsAreWritable(arch, expected.value, fields);
    hide Lists;
    tensors, dataLen := WriteLayout(fields);
    if tensors.Some? {
      LaidOutNames(fields, tensors.value, dataLen);
      GeneratedFits(arch, expected.value, fields, tensors.value);
      GeneratedIsAcceptable(fields, tensors.value, dataLen);
    }
  }

  lemma FieldsArePlain(arch: Architecture, expected: map<string, seq<nat>>, fields: seq<Field>)
    requires Lists(arch, expected, fields)
    ensures forall i :: 0 <= i < |fields| ==> PlainName(fields[i].name)
    ensures forall i, j :: 0 <= i < j < |fields| ==> fields[i].name != fields[j].name
  {
    hide Text, Shape, InSchema, PlainName;
    forall i | 0 <= i < |fields| ensures PlainName(fields[i].name) {
      assert fields[i].name in expected;
      var n :| InSchema(n, arch) && Text(n) == fields[i].name;
      NameIsPlain(n);
    }
  }
}
