# N-agent Overcooked observation features

A Dafny model of `NAgentOvercookedFeatureSpace`, the composite feature that
builds the observation vector of one agent in the n-agent Overcooked
environment. The feature owns a fixed, ordered list of fifteen sub-features:
direction, inventory, counter and pot adjacency, seven nearest-object features,
the features of the two closest pots, the distances to the other players,
position and movement capability. Its declared shape is `num_agents` times the
sum of the sub-feature shapes. An agent's per-agent encoding is the
concatenation of every sub-feature's output for that agent, in list order. The
observation of a focal agent is its own encoding, then the encoding of every
other id in `env.agent_ids`, in iteration order. The stacked vector's length is
asserted to equal the declared shape.

Files:

- `vectors.dfy` (module `Vectors`): `Flatten`, the model of `np.hstack` on a
  non-empty list of 1-D arrays, and lemmas on lengths and block positions.
- `overcooked_features.dfy` (module `OvercookedFeatures`): the sub-feature
  kinds and the fixed layout; the specification functions `PlayerEncoding`,
  `OtherAgents`, `Blocks` and `Observation`; the class
  `NAgentOvercookedFeatureSpace`; and the lemmas about them.
- `scenarios.dfy` (module `Scenarios`): three worked observations.

Modelling choices:

- A sub-feature is a value `SubFeature(kind, shape, generate)`. The cogrid
  library supplies each kind's shape and generator; the constructor receives
  them as the functions `shapeOf` and `generatorOf`, and both stay
  uninterpreted. Nothing in the model assumes that a generator returns its
  declared shape. Lemmas that need it take it as a hypothesis (`WellShaped`,
  `AllWellShaped`).
- The environment is `Env(agentIds, world)`. `agentIds` is a sequence of any
  equality type, in iteration order, and `world` is opaque simulation state.
- Vector elements are an opaque type `T`.
- The class fields are `const`: `__init__` sets them and nothing changes them
  later. `Generate` and `GeneratePlayerEncoding` have no `modifies` clause, so
  they are read-only. Their results are fixed by functions of the fields, the
  environment and the player id, so they are deterministic.
- The assertion at the end of `generate` becomes the result
  `ShapeMismatch(declared, actual)`. A successful call returns
  `Encoded(values)`. The values are never padded or truncated.
- `numAgents` is a ghost field. The source only keeps it in a local variable,
  but `Valid()` needs it to state the class invariant.

## Model

| member | source | states |
|---|---|---|
| `OvercookedFeatures.NAgentOvercookedFeatureSpace.constructor` | overcooked_features.py:34-90 | the list is the fixed fifteen-entry layout, with `DistToOtherPlayers(num_agents - 1)`, instantiated with the library's shapes and generators; `shape == num_agents * ShapeSum(list)`; `Valid()` holds |
| `OvercookedFeatures.InstantiateShapeSum` | overcooked_features.py:38-82 | the declared shapes of the built sub-feature objects add up to the library's shapes of the listed kinds, a sum defined over the kinds alone, whatever the generators are |
| `OvercookedFeatures.NAgentOvercookedFeatureSpace.GeneratePlayerEncoding` | overcooked_features.py:108-115 | the loop returns `PlayerEncoding`: every sub-feature's output for the agent, in list order, stacked |
| `OvercookedFeatures.PlayerEncodingLength` | overcooked_features.py:108-115 | an agent's encoding is as long as the sum of its sub-feature outputs; when each output has its declared shape, that is the sum of the declared shapes |
| `OvercookedFeatures.PlayerEncodingLayout` | overcooked_features.py:111-115 | with well-shaped outputs, sub-feature `k` occupies the slice from `Offset(fs, k)` of every agent's block, whatever the agent and the environment |
| `OvercookedFeatures.NAgentOvercookedFeatureSpace.Generate` | overcooked_features.py:92-106 | the result is `Encoded(Observation)` exactly when the stacked vector has the declared length, and `ShapeMismatch(shape, actual length)` otherwise; under `Valid()`, with well-shaped sub-features and `num_agents` distinct ids that include the player, it is `Encoded` with `shape` values |
| `OvercookedFeatures.OtherAgentsConcat` | overcooked_features.py:97-100 | skipping the focal id distributes over concatenation of the id list, so the kept ids stay in iteration order |
| `OvercookedFeatures.OtherAgentsMembers` | overcooked_features.py:97-99 | an id is kept if and only if it is in `agent_ids` and differs from `player_id`, so every occurrence of `player_id` is skipped |
| `OvercookedFeatures.OtherAgentsCount` | overcooked_features.py:97-100 | the number of kept ids is `len(agent_ids)` minus the number of occurrences of `player_id` |
| `OvercookedFeatures.BlockCount` | overcooked_features.py:95-100 | the observation has `1 + len(agent_ids) - occurrences(player_id)` blocks: `len(agent_ids) + 1` when the player is absent, `len(agent_ids)` when ids are distinct and the player is present |
| `OvercookedFeatures.ObservationLength` | overcooked_features.py:95-102 | with well-shaped sub-features the observation is `(1 + len(others)) * ShapeSum(list)` long |
| `OvercookedFeatures.ObservationBlock` | overcooked_features.py:95-102 | with well-shaped sub-features, block 0 of the observation is the focal agent's encoding and block `j + 1` is that of the `j`-th other agent in iteration order |
| `OvercookedFeatures.ShapeCheckIff` | overcooked_features.py:80-104 | with well-shaped sub-features, the assertion holds if and only if the per-agent width is 0 or `1 + len(agent_ids) - occurrences(player_id) == num_agents` |
| `OvercookedFeatures.ShapeCheckHolds` | overcooked_features.py:80-104 | `num_agents` distinct ids that include the player, with well-shaped sub-features, make the stacked length equal the declared shape |
| `OvercookedFeatures.ShapeCheckHoldsWithoutPlayer` | overcooked_features.py:95-104 | a focal agent absent from `agent_ids` still passes the assertion when `agent_ids` holds `num_agents - 1` ids, with well-shaped sub-features |
| `OvercookedFeatures.ShapeCheckFails` | overcooked_features.py:95-104 | with a non-empty per-agent block and well-shaped sub-features, the assertion fails when the player is missing from `num_agents` ids, when it is listed two or more times among `num_agents` ids, or when the ids are distinct, include the player and number other than `num_agents` |
| `OvercookedFeatures.ShortOutputFails` | overcooked_features.py:102-104 | with `num_agents` distinct ids that include the player, no output longer than declared and one output of a listed agent shorter than declared, the observation is shorter than the declared shape, so the assertion fails |
| `OvercookedFeatures.LayoutShapeSum` | overcooked_features.py:38-82 | the per-agent width of the built list is a part independent of the agent count plus the shape of `DistToOtherPlayers(num_agents - 1)` |
| `OvercookedFeatures.DoublingAgents` | overcooked_features.py:71-82 | for a fixed list, doubling the agent count doubles the declared shape; for the list the constructor builds, the shape doubles if and only if the distance feature's shape is the same for `n - 1` and `2n - 1` other players |
| `Vectors.FlattenLength` | overcooked_features.py:102 | stacking keeps every element: the stacked length is the sum of the part lengths |
| `Vectors.FlattenConcat` | overcooked_features.py:115 | stacking a concatenated list of parts is the concatenation of the two stacks |
| `Scenarios.OrderingExample` | overcooked_features.py:95-100 | ids `[x, y, z]` with focal `y` give `enc(y) + enc(x) + enc(z)` |
| `Scenarios.TwoAgentExample` | overcooked_features.py:92-115 | a direction feature of shape 2 and an inventory feature of shape 1 over agents `["a", "b"]` declare shape 6, and the observation of `"a"` is `[1, 0, 0, 0, 1, 1]` |
| `Scenarios.ShortFeatureExample` | overcooked_features.py:102-104 | a feature that declares shape 3 but returns two values gives a stacked length of 2 against a declared shape of 3, so the assertion fails |

## Left out

- The `.astype(np.float32)` conversion (overcooked_features.py:102) is not modelled. It is floating-point precision handling, and the element type is opaque.
- The `low`/`high` bounds, the `name`, `**kwargs` and the base `feature.Feature` constructor (overcooked_features.py:84-90) are left out. They are infinities and foreign code, and nothing here enforces them.
- How each sub-feature computes its values is not modelled. That is cogrid library code, which is not part of this model. Only each one's kind with its parameters, its shape and an uninterpreted generator remain.
- The lookup of `num_agents` in `env.config` (overcooked_features.py:36) is left out. `numAgents` is a `nat` argument of the constructor. A missing or negative value is outside the model. The code raises no configuration error for a non-positive count, and the model follows the code: with 0 agents the declared shape is 0.
- The `AssertionError` raised at overcooked_features.py:104 is not modelled as an exception. It is the `ShapeMismatch` result, which carries the declared and the actual length.
- The source does not check that `player_id` is in `agent_ids`, and neither does the model: the focal encoding is produced anyway. With well-shaped sub-features, an absent `player_id` makes the assertion fail unless `len(agent_ids) == num_agents - 1` (`ShapeCheckIff`, `ShapeCheckHoldsWithoutPlayer`).
- Sub-feature generators are total functions in the model. A sub-feature that raises on an id the environment does not know is not modelled.
- `np.hstack` raises on an empty list, while `Flatten` returns the empty vector. The aggregator never stacks an empty list: the constructor always builds fifteen sub-features, and the list of player encodings always holds the focal block. So the difference only concerns the general lemmas applied to an empty sub-feature list.
- Under `python -O` the `assert` at overcooked_features.py:104 is skipped, and a mismatched vector would be returned. The model follows the asserting behaviour.
