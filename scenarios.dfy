/** Concrete observations: the ordering of the other agents, a complete
    two-agent observation, and a sub-feature that returns fewer values than it
    declares. */
module Scenarios {
  import opened Vectors
  import opened OvercookedFeatures

  /** Ids `[x, y, z]` with focal agent `y`: `y`'s block, then `x`'s, then `z`'s. */
  lemma OrderingExample<W, Id, T>(fs: seq<SubFeature<W, Id, T>>, world: W, x: Id, y: Id, z: Id)
    requires x != y && y != z && x != z
    ensures OtherAgents([x, y, z], y) == [x, z]
    ensures Observation(fs, Env([x, y, z], world), y)
         == PlayerEncoding(fs, Env([x, y, z], world), y)
          + PlayerEncoding(fs, Env([x, y, z], world), x)
          + PlayerEncoding(fs, Env([x, y, z], world), z)
  {
    var env := Env([x, y, z], world);
    assert [x, y, z] == [x] + [y] + [z];
    OtherAgentsConcat([x] + [y], [z], y);
    OtherAgentsConcat([x], [y], y);
    assert OtherAgents([x], y) == [x] by { assert [x][..0] == []; }
    assert OtherAgents([y], y) == [] by { assert [y][..0] == []; }
    assert OtherAgents([z], y) == [z] by { assert [z][..0] == []; }
    var a, b, c := PlayerEncoding(fs, env, y), PlayerEncoding(fs, env, x), PlayerEncoding(fs, env, z);
    assert Blocks(fs, env, y) == [a, b, c];
    assert [c][1..] == [] && [b, c][1..] == [c] && [a, b, c][1..] == [b, c];
    assert Flatten([c]) == c + Flatten([]);
    assert Flatten([b, c]) == b + Flatten([c]);
    assert Flatten([a, b, c]) == a + Flatten([b, c]);
  }

  /** A direction feature of shape 2 and an inventory feature of shape 1. */
  function DirectionFeature(): SubFeature<(), string, int>
  {
    SubFeature(AgentDir, 2, (env: Env<(), string>, id: string) => if id == "a" then [1, 0] else [0, 1])
  }

  function InventoryFeature(): SubFeature<(), string, int>
  {
    SubFeature(OvercookedInventory, 1, (env: Env<(), string>, id: string) => if id == "a" then [0] else [1])
  }

  /** Agents `["a", "b"]`: the declared shape is `2 * (2 + 1)`, and the
      observation of `"a"` is `"a"`'s block followed by `"b"`'s. */
  lemma TwoAgentExample()
    ensures DeclaredShape(2, [DirectionFeature(), InventoryFeature()]) == 6
    ensures Observation([DirectionFeature(), InventoryFeature()], Env(["a", "b"], ()), "a") == [1, 0, 0, 0, 1, 1]
  {
    var fs := [DirectionFeature(), InventoryFeature()];
    var env := Env(["a", "b"], ());
    assert fs[1..][1..] == [];
    assert ShapeSum(fs) == 3;
    assert ["a", "b"] == ["a"] + ["b"];
    OtherAgentsConcat(["a"], ["b"], "a");
    assert OtherAgents(["a"], "a") == [] by { assert ["a"][..0] == []; }
    assert OtherAgents(["b"], "a") == ["b"] by { assert ["b"][..0] == []; }
    forall id: string ensures PlayerEncoding(fs, env, id) == fs[0].generate(env, id) + fs[1].generate(env, id) {
      var outputs := FeatureOutputs(fs, env, id);
      var d, v := fs[0].generate(env, id), fs[1].generate(env, id);
      assert outputs == [d, v];
      assert [v][1..] == [] && [d, v][1..] == [v];
      assert Flatten([v]) == v + Flatten([]);
      assert Flatten([d, v]) == d + Flatten([v]);
    }
    var a, b := PlayerEncoding(fs, env, "a"), PlayerEncoding(fs, env, "b");
    assert a == [1, 0, 0];
    assert b == [0, 1, 1];
    assert Blocks(fs, env, "a") == [a, b];
    assert [a, b][1..][1..] == [];
  }

  /** A feature that declares shape 3 but returns two values: the stacked
      observation is two values long, so the shape assertion fails. */
  lemma ShortFeatureExample()
    ensures |Observation([SubFeature(AgentDir, 3, (env: Env<(), string>, id: string) => [0, 0])], Env(["a"], ()), "a")| == 2
    ensures DeclaredShape(1, [SubFeature(AgentDir, 3, (env: Env<(), string>, id: string) => [0, 0])]) == 3
  {
    var fs := [SubFeature(AgentDir, 3, (env: Env<(), string>, id: string) => [0, 0])];
    var env := Env(["a"], ());
    assert OtherAgents(["a"], "a") == [] by { assert ["a"][..0] == []; }
    assert FeatureOutputs(fs, env, "a") == [[0, 0]];
    assert PlayerEncoding(fs, env, "a") == [0, 0] by {
      assert [[0, 0]][1..] == [];
    }
    assert Blocks(fs, env, "a") == [[0, 0]];
    assert [[0, 0]][1..] == [];
    assert fs[1..] == [];
  }
}
