/** The composite observation of the n-agent Overcooked environment.

    `NAgentOvercookedFeatureSpace` owns a fixed, ordered list of sub-features.
    An agent's per-agent encoding is the concatenation of every sub-feature's
    output for that agent, in list order. The observation of a focal agent is
    its own encoding followed by the encodings of every other agent id, in
    the environment's iteration order. The observation length is checked
    against the shape declared at construction, `num_agents` times the sum of
    the sub-feature shapes.

    The sub-features themselves belong to an external library. Each one is
    kept as its kind, its declared shape and an uninterpreted generator.
 */
module OvercookedFeatures {
  import opened Vectors

  /** The grid object types the nearest-object features look for. */
  datatype ObjectType = Onion | Plate | PlateStack | OnionStack | OnionSoup | DeliveryZone | Counter

  /** Which sub-feature a list entry is, with its construction parameters. */
  datatype FeatureKind =
    | AgentDir
    | OvercookedInventory
    | NextToCounter
    | NextToPot
    | ClosestObj(focalObjectType: ObjectType, n: nat)
    | NClosestPotFeatures(numPots: nat)
    | DistToOtherPlayers(numOtherPlayers: int)
    | AgentPosition
    | CanMoveDirection

  /** The environment as this component sees it: the agent ids in iteration
      order, and the rest of the simulation state, opaque here. */
  datatype Env<W, Id> = Env(agentIds: seq<Id>, world: W)

  /** A sub-feature: its kind, its declared shape and its generator. The
      generator is not required to honour the declared shape. */
  datatype SubFeature<!W, !Id, T> = SubFeature(kind: FeatureKind, shape: nat, generate: (Env<W, Id>, Id) -> seq<T>)

  /** What `generate` produces: the observation, or the failure of the shape
      assertion with the declared and the actual length. */
  datatype GenResult<T> = Encoded(values: seq<T>) | ShapeMismatch(declared: nat, actual: nat)

  /** The fixed composition of the per-agent block, in output order. Only the
      distance to the other players depends on the agent count. */
  function Layout(numAgents: int): seq<FeatureKind>
  {
    [ AgentDir,
      OvercookedInventory,
      NextToCounter,
      NextToPot,
      ClosestObj(Onion, 4),
      ClosestObj(Plate, 4),
      ClosestObj(PlateStack, 2),
      ClosestObj(OnionStack, 2),
      ClosestObj(OnionSoup, 4),
      ClosestObj(DeliveryZone, 2),
      ClosestObj(Counter, 4),
      NClosestPotFeatures(2),
      DistToOtherPlayers(numAgents - 1),
      AgentPosition,
      CanMoveDirection ]
  }

  /** The sub-feature objects built for a list of kinds, with the shapes and
      generators the external library gives them. */
  function Instantiate<W, Id, T>(kinds: seq<FeatureKind>, shapeOf: FeatureKind -> nat,
                                 generatorOf: FeatureKind -> (Env<W, Id>, Id) -> seq<T>): seq<SubFeature<W, Id, T>>
  {
    seq(|kinds|, i requires 0 <= i < |kinds| => SubFeature(kinds[i], shapeOf(kinds[i]), generatorOf(kinds[i])))
  }

  /** The sum of the declared shapes of `fs`. */
  function ShapeSum<W, Id, T>(fs: seq<SubFeature<W, Id, T>>): nat
  {
    if fs == [] then 0 else fs[0].shape + ShapeSum(fs[1..])
  }

  /** The sum of the library's shapes for a list of kinds. */
  function KindShapeSum(kinds: seq<FeatureKind>, shapeOf: FeatureKind -> nat): nat
  {
    if kinds == [] then 0 else shapeOf(kinds[0]) + KindShapeSum(kinds[1..], shapeOf)
  }

  lemma {:induction false} KindShapeSumConcat(a: seq<FeatureKind>, b: seq<FeatureKind>, shapeOf: FeatureKind -> nat)
    ensures KindShapeSum(a + b, shapeOf) == KindShapeSum(a, shapeOf) + KindShapeSum(b, shapeOf)
  {
    if a == [] {
      assert a + b == b;
    } else {
      assert (a + b)[1..] == a[1..] + b;
      KindShapeSumConcat(a[1..], b, shapeOf);
    }
  }

  /** The declared shapes of the built objects add up to the library's shapes
      of the listed kinds, whatever the generators are. */
  lemma {:induction false} InstantiateShapeSum<W, Id, T>(kinds: seq<FeatureKind>, shapeOf: FeatureKind -> nat,
                                                       generatorOf: FeatureKind -> (Env<W, Id>, Id) -> seq<T>)
    ensures ShapeSum(Instantiate(kinds, shapeOf, generatorOf)) == KindShapeSum(kinds, shapeOf)
  {
    if kinds != [] {
      assert Instantiate(kinds, shapeOf, generatorOf)[1..] == Instantiate(kinds[1..], shapeOf, generatorOf);
      InstantiateShapeSum(kinds[1..], shapeOf, generatorOf);
    }
  }

  /** The declared observation length. */
  function DeclaredShape<W, Id, T>(numAgents: nat, fs: seq<SubFeature<W, Id, T>>): nat
  {
    numAgents * ShapeSum(fs)
  }

  // ---------------------------------------------------------------------------
  // Per-agent encoding

  /** The outputs of the sub-features for agent `id`, one per list entry. */
  function FeatureOutputs<W, Id, T>(fs: seq<SubFeature<W, Id, T>>, env: Env<W, Id>, id: Id): seq<seq<T>>
  {
    seq(|fs|, i requires 0 <= i < |fs| => fs[i].generate(env, id))
  }

  /** The per-agent encoding of agent `id`. */
  function PlayerEncoding<W, Id, T>(fs: seq<SubFeature<W, Id, T>>, env: Env<W, Id>, id: Id): seq<T>
  {
    Flatten(FeatureOutputs(fs, env, id))
  }

  /** Every sub-feature returns exactly its declared shape for agent `id`. */
  ghost predicate WellShaped<W, Id, T>(fs: seq<SubFeature<W, Id, T>>, env: Env<W, Id>, id: Id)
  {
    forall i :: 0 <= i < |fs| ==> |fs[i].generate(env, id)| == fs[i].shape
  }

  /** The offset of sub-feature `k` inside every per-agent block. */
  function Offset<W, Id, T>(fs: seq<SubFeature<W, Id, T>>, k: nat): nat
    requires k <= |fs|
  {
    ShapeSum(fs[..k])
  }

  lemma {:induction false} OutputsLength<W, Id, T>(fs: seq<SubFeature<W, Id, T>>, env: Env<W, Id>, id: Id)
    requires WellShaped(fs, env, id)
    ensures TotalLength(FeatureOutputs(fs, env, id)) == ShapeSum(fs)
  {
    if fs != [] {
      assert FeatureOutputs(fs, env, id)[1..] == FeatureOutputs(fs[1..], env, id);
      assert WellShaped(fs[1..], env, id) by {
        forall i | 0 <= i < |fs[1..]| ensures |fs[1..][i].generate(env, id)| == fs[1..][i].shape {
          assert fs[1..][i] == fs[i + 1];
        }
      }
      OutputsLength(fs[1..], env, id);
    }
  }

  /** The length of an agent's encoding is the sum of the lengths of the
      sub-feature outputs; when every sub-feature honours its declared shape,
      it is the sum of the declared shapes. */
  lemma PlayerEncodingLength<W, Id, T>(fs: seq<SubFeature<W, Id, T>>, env: Env<W, Id>, id: Id)
    ensures |PlayerEncoding(fs, env, id)| == TotalLength(FeatureOutputs(fs, env, id))
    ensures WellShaped(fs, env, id) ==> |PlayerEncoding(fs, env, id)| == ShapeSum(fs)
  {
    FlattenLength(FeatureOutputs(fs, env, id));
    if WellShaped(fs, env, id) {
      OutputsLength(fs, env, id);
    }
  }

  /** The same layout for every agent: sub-feature `k`'s output occupies the
      positions from `Offset(fs, k)` on, which depend on neither the agent
      nor the environment. */
  lemma PlayerEncodingLayout<W, Id, T>(fs: seq<SubFeature<W, Id, T>>, env: Env<W, Id>, id: Id, k: nat)
    requires WellShaped(fs, env, id)
    requires k < |fs|
    ensures Offset(fs, k) + fs[k].shape <= |PlayerEncoding(fs, env, id)|
    ensures PlayerEncoding(fs, env, id)[Offset(fs, k) .. Offset(fs, k) + fs[k].shape] == fs[k].generate(env, id)
  {
    var outputs := FeatureOutputs(fs, env, id);
    PartAtOffset(outputs, k);
    assert outputs[..k] == FeatureOutputs(fs[..k], env, id);
    assert WellShaped(fs[..k], env, id) by {
      forall i | 0 <= i < k ensures |fs[..k][i].generate(env, id)| == fs[..k][i].shape {
        assert fs[..k][i] == fs[i];
      }
    }
    OutputsLength(fs[..k], env, id);
  }

  // ---------------------------------------------------------------------------
  // Multi-agent assembly

  /** The ids of `ids` other than `playerId`, in iteration order: every
      occurrence of `playerId` is skipped. */
  function OtherAgents<Id(==)>(ids: seq<Id>, playerId: Id): seq<Id>
  {
    if ids == [] then []
    else
      var last := ids[|ids| - 1];
      OtherAgents(ids[..|ids| - 1], playerId) + (if last == playerId then [] else [last])
  }

  /** The filter is order preserving: it distributes over concatenation, so
      the ids it keeps stay in their relative order. */
  lemma {:induction false} OtherAgentsConcat<Id>(a: seq<Id>, b: seq<Id>, playerId: Id)
    ensures OtherAgents(a + b, playerId) == OtherAgents(a, playerId) + OtherAgents(b, playerId)
  {
    if b == [] {
      assert a + b == a;
    } else {
      var last := b[|b| - 1];
      assert (a + b)[..|a + b| - 1] == a + b[..|b| - 1];
      OtherAgentsConcat(a, b[..|b| - 1], playerId);
    }
  }

  /** An id is kept exactly when it occurs in `ids` and is not `playerId`. */
  lemma {:induction false} OtherAgentsMembers<Id>(ids: seq<Id>, playerId: Id, q: Id)
    ensures q in OtherAgents(ids, playerId) <==> q in ids && q != playerId
  {
    if ids != [] {
      var init := ids[..|ids| - 1];
      OtherAgentsMembers(init, playerId, q);
      assert ids == init + [ids[|ids| - 1]];
    }
  }

  /** One id is dropped per occurrence of `playerId`. */
  lemma {:induction false} OtherAgentsCount<Id>(ids: seq<Id>, playerId: Id)
    ensures |OtherAgents(ids, playerId)| == |ids| - multiset(ids)[playerId]
  {
    if ids != [] {
      var init := ids[..|ids| - 1];
      OtherAgentsCount(init, playerId);
      assert ids == init + [ids[|ids| - 1]];
      assert multiset(ids) == multiset(init) + multiset{ids[|ids| - 1]};
    }
  }

  /** No id occurs twice. */
  ghost predicate Distinct<Id>(ids: seq<Id>)
  {
    forall i, j :: 0 <= i < j < |ids| ==> ids[i] != ids[j]
  }

  lemma {:induction false} DistinctMultiplicity<Id>(ids: seq<Id>, q: Id)
    requires Distinct(ids)
    ensures multiset(ids)[q] == if q in ids then 1 else 0
  {
    if ids != [] {
      var init := ids[..|ids| - 1];
      assert ids == init + [ids[|ids| - 1]];
      assert multiset(ids) == multiset(init) + multiset{ids[|ids| - 1]};
      assert Distinct(init);
      DistinctMultiplicity(init, q);
      forall i | 0 <= i < |init| ensures init[i] != ids[|ids| - 1] {
        assert init[i] == ids[i];
      }
    }
  }

  /** The per-agent encodings of `ids`, in order. */
  function Encodings<W, Id, T>(fs: seq<SubFeature<W, Id, T>>, env: Env<W, Id>, ids: seq<Id>): seq<seq<T>>
  {
    seq(|ids|, i requires 0 <= i < |ids| => PlayerEncoding(fs, env, ids[i]))
  }

  /** The blocks of the observation of `playerId`: its own encoding, then
      those of the other agents. */
  function Blocks<W, Id(==), T>(fs: seq<SubFeature<W, Id, T>>, env: Env<W, Id>, playerId: Id): seq<seq<T>>
  {
    [PlayerEncoding(fs, env, playerId)] + Encodings(fs, env, OtherAgents(env.agentIds, playerId))
  }

  /** The stacked observation, before the shape assertion. */
  function Observation<W, Id(==), T>(fs: seq<SubFeature<W, Id, T>>, env: Env<W, Id>, playerId: Id): seq<T>
  {
    Flatten(Blocks(fs, env, playerId))
  }

  /** The number of blocks is one for the focal agent plus one per id in
      `agentIds` that differs from it. */
  lemma BlockCount<W, Id, T>(fs: seq<SubFeature<W, Id, T>>, env: Env<W, Id>, playerId: Id)
    ensures |Blocks(fs, env, playerId)| == 1 + |env.agentIds| - multiset(env.agentIds)[playerId]
    ensures playerId !in env.agentIds ==> |Blocks(fs, env, playerId)| == |env.agentIds| + 1
    ensures Distinct(env.agentIds) && playerId in env.agentIds ==> |Blocks(fs, env, playerId)| == |env.agentIds|
  {
    OtherAgentsCount(env.agentIds, playerId);
    MultiplicityCases(env.agentIds, playerId);
  }

  lemma MultiplicityCases<Id>(ids: seq<Id>, q: Id)
    ensures q !in ids ==> multiset(ids)[q] == 0
    ensures Distinct(ids) && q in ids ==> multiset(ids)[q] == 1
  {
    if Distinct(ids) {
      DistinctMultiplicity(ids, q);
    }
  }

  /** Every sub-feature honours its shape for the focal agent and for every
      id the environment lists. */
  ghost predicate AllWellShaped<W, Id, T>(fs: seq<SubFeature<W, Id, T>>, env: Env<W, Id>, playerId: Id)
  {
    WellShaped(fs, env, playerId) && forall q :: q in env.agentIds ==> WellShaped(fs, env, q)
  }

  /** With well-shaped sub-features, every block is `ShapeSum(fs)` long. */
  lemma BlockWidths<W, Id, T>(fs: seq<SubFeature<W, Id, T>>, env: Env<W, Id>, playerId: Id)
    requires AllWellShaped(fs, env, playerId)
    ensures forall i :: 0 <= i < |Blocks(fs, env, playerId)| ==> |Blocks(fs, env, playerId)[i]| == ShapeSum(fs)
  {
    var others := OtherAgents(env.agentIds, playerId);
    var blocks := Blocks(fs, env, playerId);
    forall i | 0 <= i < |blocks| ensures |blocks[i]| == ShapeSum(fs) {
      if i == 0 {
        PlayerEncodingLength(fs, env, playerId);
      } else {
        OtherAgentsMembers(env.agentIds, playerId, others[i - 1]);
        PlayerEncodingLength(fs, env, others[i - 1]);
      }
    }
  }

  /** With well-shaped sub-features, the observation is one per-agent width
      per block. */
  lemma ObservationLength<W, Id, T>(fs: seq<SubFeature<W, Id, T>>, env: Env<W, Id>, playerId: Id)
    requires AllWellShaped(fs, env, playerId)
    ensures |Observation(fs, env, playerId)| == (1 + |OtherAgents(env.agentIds, playerId)|) * ShapeSum(fs)
  {
    BlockWidths(fs, env, playerId);
    UniformLength(Blocks(fs, env, playerId), ShapeSum(fs));
  }

  /** With well-shaped sub-features, the observation is a run of blocks of
      `ShapeSum(fs)` elements: block 0 is the focal agent's encoding and block
      `j + 1` that of the `j`-th other agent, in iteration order. */
  lemma ObservationBlock<W, Id, T>(fs: seq<SubFeature<W, Id, T>>, env: Env<W, Id>, playerId: Id, j: nat)
    requires AllWellShaped(fs, env, playerId)
    requires j <= |OtherAgents(env.agentIds, playerId)|
    ensures (j + 1) * ShapeSum(fs) <= |Observation(fs, env, playerId)|
    ensures Observation(fs, env, playerId)[j * ShapeSum(fs) .. (j + 1) * ShapeSum(fs)]
         == if j == 0 then PlayerEncoding(fs, env, playerId)
            else PlayerEncoding(fs, env, OtherAgents(env.agentIds, playerId)[j - 1])
  {
    BlockWidths(fs, env, playerId);
    UniformBlock(Blocks(fs, env, playerId), ShapeSum(fs), j);
  }

  /** The shape assertion holds exactly when the number of blocks times the
      per-agent width equals the declared shape: for well-shaped sub-features,
      when the per-agent width is zero or when `agentIds` without the focal
      agent, plus the focal agent, has `numAgents` entries. */
  lemma ShapeCheckIff<W, Id, T>(numAgents: nat, fs: seq<SubFeature<W, Id, T>>, env: Env<W, Id>, playerId: Id)
    requires AllWellShaped(fs, env, playerId)
    ensures |Observation(fs, env, playerId)| == DeclaredShape(numAgents, fs)
        <==> ShapeSum(fs) == 0 || 1 + |env.agentIds| - multiset(env.agentIds)[playerId] == numAgents
  {
    ObservationLength(fs, env, playerId);
    OtherAgentsCount(env.agentIds, playerId);
    var blocks := 1 + |env.agentIds| - multiset(env.agentIds)[playerId];
    MulCancel(blocks, numAgents, ShapeSum(fs));
  }

  lemma MulCancel(a: nat, b: nat, c: nat)
    ensures a * c == b * c <==> c == 0 || a == b
  {
  }

  /** The assertion holds when `agentIds` lists `numAgents` distinct ids
      including the focal agent and every sub-feature honours its shape. */
  lemma ShapeCheckHolds<W, Id, T>(numAgents: nat, fs: seq<SubFeature<W, Id, T>>, env: Env<W, Id>, playerId: Id)
    requires AllWellShaped(fs, env, playerId)
    requires Distinct(env.agentIds) && playerId in env.agentIds && |env.agentIds| == numAgents
    ensures |Observation(fs, env, playerId)| == DeclaredShape(numAgents, fs)
  {
    ShapeCheckIff(numAgents, fs, env, playerId);
    DistinctMultiplicity(env.agentIds, playerId);
  }

  /** A focal agent missing from `agentIds` still passes the assertion when
      `agentIds` lists `numAgents - 1` ids: the focal block takes the place of
      the missing one. */
  lemma ShapeCheckHoldsWithoutPlayer<W, Id, T>(numAgents: nat, fs: seq<SubFeature<W, Id, T>>, env: Env<W, Id>, playerId: Id)
    requires AllWellShaped(fs, env, playerId)
    requires playerId !in env.agentIds && |env.agentIds| + 1 == numAgents
    ensures |Observation(fs, env, playerId)| == DeclaredShape(numAgents, fs)
  {
    ShapeCheckIff(numAgents, fs, env, playerId);
    MultiplicityCases(env.agentIds, playerId);
  }

  /** With a non-empty per-agent block and well-shaped sub-features, each of
      these makes the assertion fail: the focal agent missing from `agentIds`
      while it has `numAgents` entries; the focal agent listed two or more
      times among `numAgents` entries; `agentIds` of distinct ids that include
      the focal agent, but not `numAgents` of them. */
  lemma ShapeCheckFails<W, Id, T>(numAgents: nat, fs: seq<SubFeature<W, Id, T>>, env: Env<W, Id>, playerId: Id)
    requires AllWellShaped(fs, env, playerId)
    requires ShapeSum(fs) > 0
    ensures playerId !in env.agentIds && |env.agentIds| == numAgents
        ==> |Observation(fs, env, playerId)| != DeclaredShape(numAgents, fs)
    ensures multiset(env.agentIds)[playerId] >= 2 && |env.agentIds| == numAgents
        ==> |Observation(fs, env, playerId)| != DeclaredShape(numAgents, fs)
    ensures Distinct(env.agentIds) && playerId in env.agentIds && |env.agentIds| != numAgents
        ==> |Observation(fs, env, playerId)| != DeclaredShape(numAgents, fs)
  {
    ShapeCheckIff(numAgents, fs, env, playerId);
    MultiplicityCases(env.agentIds, playerId);
  }

  /** Every sub-feature returns at most its declared shape for agent `id`. */
  ghost predicate AtMostShaped<W, Id, T>(fs: seq<SubFeature<W, Id, T>>, env: Env<W, Id>, id: Id)
  {
    forall i :: 0 <= i < |fs| ==> |fs[i].generate(env, id)| <= fs[i].shape
  }

  /** Outputs no longer than declared give an encoding no longer than the
      declared width, and one strictly shorter output makes it shorter. */
  lemma {:induction false} OutputsLengthBelow<W, Id, T>(fs: seq<SubFeature<W, Id, T>>, env: Env<W, Id>, id: Id, k: nat)
    requires AtMostShaped(fs, env, id)
    ensures TotalLength(FeatureOutputs(fs, env, id)) <= ShapeSum(fs)
    ensures k < |fs| && |fs[k].generate(env, id)| < fs[k].shape
        ==> TotalLength(FeatureOutputs(fs, env, id)) < ShapeSum(fs)
  {
    if fs != [] {
      assert FeatureOutputs(fs, env, id)[1..] == FeatureOutputs(fs[1..], env, id);
      assert AtMostShaped(fs[1..], env, id) by {
        forall i | 0 <= i < |fs[1..]| ensures |fs[1..][i].generate(env, id)| <= fs[1..][i].shape {
          assert fs[1..][i] == fs[i + 1];
        }
      }
      OutputsLengthBelow(fs[1..], env, id, if k > 0 then k - 1 else 0);
      if k > 0 && k < |fs| {
        assert fs[1..][k - 1] == fs[k];
      }
    }
  }

  /** A sub-feature that returns fewer values than it declares makes the
      assertion fail, even when `agentIds` lists `numAgents` distinct ids
      including the focal agent: if no output is longer than declared and one
      output for a listed agent is shorter, the observation is too short. */
  lemma ShortOutputFails<W, Id, T>(numAgents: nat, fs: seq<SubFeature<W, Id, T>>, env: Env<W, Id>, playerId: Id,
                                   q: Id, k: nat)
    requires Distinct(env.agentIds) && playerId in env.agentIds && |env.agentIds| == numAgents
    requires forall id :: id in env.agentIds ==> AtMostShaped(fs, env, id)
    requires q in env.agentIds && k < |fs| && |fs[k].generate(env, q)| < fs[k].shape
    ensures |Observation(fs, env, playerId)| < DeclaredShape(numAgents, fs)
  {
    var others := OtherAgents(env.agentIds, playerId);
    var blocks := Blocks(fs, env, playerId);
    BlockCount(fs, env, playerId);
    forall i | 0 <= i < |blocks| ensures |blocks[i]| <= ShapeSum(fs) {
      var id := if i == 0 then playerId else others[i - 1];
      if i > 0 {
        OtherAgentsMembers(env.agentIds, playerId, id);
      }
      PlayerEncodingLength(fs, env, id);
      OutputsLengthBelow(fs, env, id, 0);
    }
    var short: nat;
    if q == playerId {
      short := 0;
    } else {
      OtherAgentsMembers(env.agentIds, playerId, q);
      var j :| 0 <= j < |others| && others[j] == q;
      short := j + 1;
    }
    assert blocks[short] == PlayerEncoding(fs, env, q);
    PlayerEncodingLength(fs, env, q);
    OutputsLengthBelow(fs, env, q, k);
    TotalLengthBelow(blocks, ShapeSum(fs), short);
    FlattenLength(blocks);
  }

  // ---------------------------------------------------------------------------
  // Declared shape

  /** The per-agent width of the constructor's list: a part that is the same
      for every agent count, plus the shape of `DistToOtherPlayers(m - 1)`. */
  lemma LayoutShapeSum<W, Id, T>(m: int, shapeOf: FeatureKind -> nat, generatorOf: FeatureKind -> (Env<W, Id>, Id) -> seq<T>)
    ensures ShapeSum(Instantiate(Layout(m), shapeOf, generatorOf))
         == KindShapeSum(Layout(0)[..12], shapeOf) + shapeOf(DistToOtherPlayers(m - 1)) + KindShapeSum(Layout(0)[13..], shapeOf)
  {
    var before, after := Layout(0)[..12], Layout(0)[13..];
    var middle := [DistToOtherPlayers(m - 1)];
    assert Layout(m) == before + middle + after;
    InstantiateShapeSum(Layout(m), shapeOf, generatorOf);
    KindShapeSumConcat(before + middle, after, shapeOf);
    KindShapeSumConcat(before, middle, shapeOf);
    assert KindShapeSum(middle, shapeOf) == shapeOf(middle[0]) + KindShapeSum(middle[1..], shapeOf);
  }

  /** For a fixed list, doubling the agent count doubles the declared shape.
      The list the constructor builds is not fixed, though: its
      `DistToOtherPlayers` entry is parameterised by `num_agents - 1`, so the
      declared shape doubles exactly when that entry's shape is the same for
      `n` and `2 * n` agents. */
  lemma DoublingAgents<W, Id, T>(n: nat, fs: seq<SubFeature<W, Id, T>>, shapeOf: FeatureKind -> nat,
                                 generatorOf: FeatureKind -> (Env<W, Id>, Id) -> seq<T>)
    ensures DeclaredShape(2 * n, fs) == 2 * DeclaredShape(n, fs)
    ensures DeclaredShape(2 * n, Instantiate(Layout(2 * n), shapeOf, generatorOf))
              == 2 * DeclaredShape(n, Instantiate(Layout(n), shapeOf, generatorOf))
        <==> shapeOf(DistToOtherPlayers(2 * n - 1)) == shapeOf(DistToOtherPlayers(n - 1))
  {
    LayoutShapeSum(n, shapeOf, generatorOf);
    LayoutShapeSum(2 * n, shapeOf, generatorOf);
    var fixed := KindShapeSum(Layout(0)[..12], shapeOf) + KindShapeSum(Layout(0)[13..], shapeOf);
    var d1, d2 := shapeOf(DistToOtherPlayers(n - 1)), shapeOf(DistToOtherPlayers(2 * n - 1));
    assert 2 * DeclaredShape(n, Instantiate(Layout(n), shapeOf, generatorOf)) == (fixed + d1) * (2 * n);
    assert DeclaredShape(2 * n, Instantiate(Layout(2 * n), shapeOf, generatorOf)) == (fixed + d2) * (2 * n);
    MulCancel(fixed + d2, fixed + d1, 2 * n);
  }

  // ---------------------------------------------------------------------------
  // The aggregator

  /** The composite feature. Its fields are set once by the constructor and
      never change afterwards; `numAgents` is kept for the specification only. */
  class NAgentOvercookedFeatureSpace<W, Id(==), T> {
    const agentFeatures: seq<SubFeature<W, Id, T>>
    const shape: nat
    ghost const numAgents: nat

    /** The list has the fixed layout for `numAgents` agents, and the shape
        is the declared one. */
    ghost predicate Valid()
    {
      && |agentFeatures| == |Layout(numAgents)|
      && (forall i :: 0 <= i < |agentFeatures| ==> agentFeatures[i].kind == Layout(numAgents)[i])
      && shape == DeclaredShape(numAgents, agentFeatures)
    }

    /** Builds the sub-feature list and computes the declared shape. */
    constructor (numAgents: nat, shapeOf: FeatureKind -> nat, generatorOf: FeatureKind -> (Env<W, Id>, Id) -> seq<T>)
      ensures Valid()
      ensures this.numAgents == numAgents
      ensures agentFeatures == Instantiate(Layout(numAgents), shapeOf, generatorOf)
      ensures shape == numAgents * ShapeSum(agentFeatures)
    {
      this.numAgents := numAgents;
      agentFeatures := Instantiate(Layout(numAgents), shapeOf, generatorOf);
      shape := numAgents * ShapeSum(Instantiate(Layout(numAgents), shapeOf, generatorOf));
    }

    /** The per-agent encoding of `playerId`: every sub-feature's output, in
        list order, stacked. */
    method GeneratePlayerEncoding(env: Env<W, Id>, playerId: Id) returns (encoding: seq<T>)
      ensures encoding == PlayerEncoding(agentFeatures, env, playerId)
    {
      var encodedFeatures: seq<seq<T>> := [];
      for i := 0 to |agentFeatures|
        invariant encodedFeatures == FeatureOutputs(agentFeatures[..i], env, playerId)
      {
        assert agentFeatures[..i + 1] == agentFeatures[..i] + [agentFeatures[i]];
        encodedFeatures := encodedFeatures + [agentFeatures[i].generate(env, playerId)];
      }
      assert agentFeatures[..|agentFeatures|] == agentFeatures;
      encoding := Flatten(encodedFeatures);
    }

    /** The observation of `playerId`: its own block first, then the block of
        every other id of `env.agentIds` in order. The stacked vector is
        returned unchanged when its length is the declared shape; otherwise
        the shape assertion fails. */
    method Generate(env: Env<W, Id>, playerId: Id) returns (r: GenResult<T>)
      ensures r.Encoded? <==> |Observation(agentFeatures, env, playerId)| == shape
      ensures r.Encoded? ==> r.values == Observation(agentFeatures, env, playerId)
      ensures r.ShapeMismatch? ==> r.declared == shape && r.actual == |Observation(agentFeatures, env, playerId)|
      ensures Valid() && AllWellShaped(agentFeatures, env, playerId)
           && Distinct(env.agentIds) && playerId in env.agentIds && |env.agentIds| == numAgents
          ==> r.Encoded? && |r.values| == shape
    {
      var own := GeneratePlayerEncoding(env, playerId);
      var playerEncodings := [own];
      for i := 0 to |env.agentIds|
        invariant playerEncodings
               == [PlayerEncoding(agentFeatures, env, playerId)]
                + Encodings(agentFeatures, env, OtherAgents(env.agentIds[..i], playerId))
      {
        var pid := env.agentIds[i];
        assert env.agentIds[..i + 1][..i] == env.agentIds[..i];
        if pid == playerId {
          continue;
        }
        var e := GeneratePlayerEncoding(env, pid);
        playerEncodings := playerEncodings + [e];
      }
      assert env.agentIds[..|env.agentIds|] == env.agentIds;
      var encoding := Flatten(playerEncodings);
      if Valid() && AllWellShaped(agentFeatures, env, playerId)
         && Distinct(env.agentIds) && playerId in env.agentIds && |env.agentIds| == numAgents {
        ShapeCheckHolds(numAgents, agentFeatures, env, playerId);
      }
      if |encoding| == shape {
        r := Encoded(encoding);
      } else {
        r := ShapeMismatch(shape, |encoding|);
      }
    }
  }
}
