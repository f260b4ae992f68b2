/**
 * The determinism harness (application/setups/determinism_test_setup.cpp): several copies
 * of the same world are stepped with the same input, and after every step each copy's
 * serialized significant state is compared with world 0's. Stepping, input unpacking,
 * serialization and viewing are foreign here: a world is a value of type `W`; world i is
 * stepped through its own test bed, so a step is a deterministic function of the world's
 * index, the world and the step's input; serialization is a function from a world to bytes.
 */
module DeterminismTest {
  import opened Ints

  /** Every world equals world 0. */
  predicate AllEqual<W(==)>(ws: seq<W>) {
    forall i | 0 <= i < |ws| :: ws[i] == ws[0]
  }

  /** Every world's test bed steps a world the same way as world 0's. */
  ghost predicate StepsAlike<W(!new), E(!new)>(advance: (nat, W, E) -> W) {
    forall i: nat, w: W, e: E :: advance(i, w, e) == advance(0, w, e)
  }

  /**
   * One step of every world: world i becomes test bed i's step of the next world (of itself
   * for the last world), as the copy-then-step loop leaves them.
   */
  function StepWorlds<W, E>(ws: seq<W>, e: E, advance: (nat, W, E) -> W): (r: seq<W>)
    ensures |r| == |ws|
  {
    seq(|ws|, i requires 0 <= i < |ws| => advance(i, if i + 1 < |ws| then ws[i + 1] else ws[i], e))
  }

  /**
   * The first world from `k` on whose serialized state differs from world 0's, or the world
   * count when there is none.
   */
  function FirstDivergent<W>(ws: seq<W>, serialize: W -> seq<uint8>, k: nat): (r: nat)
    requires 1 <= |ws| && k <= |ws|
    ensures k <= r <= |ws|
    ensures r < |ws| ==> serialize(ws[r]) != serialize(ws[0])
    ensures forall i | k <= i < r :: serialize(ws[i]) == serialize(ws[0])
    decreases |ws| - k
  {
    if k == |ws| then k
    else if serialize(ws[k]) != serialize(ws[0]) then k
    else FirstDivergent(ws, serialize, k + 1)
  }

  /**
   * The harness over a list of steps: every world is stepped, then compared with world 0;
   * stepping stops after the first step that makes some world diverge. The result is the
   * worlds, whether a divergence was found, and the first divergent world.
   */
  function Run<W, E>(ws: seq<W>, steps: seq<E>, advance: (nat, W, E) -> W, serialize: W -> seq<uint8>): (r: (seq<W>, bool, nat))
    requires 1 <= |ws|
    ensures |r.0| == |ws|
    ensures r.1 ==> 1 <= r.2 < |ws| && r.2 == FirstDivergent(r.0, serialize, 1)
    decreases |steps|
  {
    if steps == [] then (ws, false, 0)
    else
      var next := StepWorlds(ws, steps[0], advance);
      var d := FirstDivergent(next, serialize, 1);
      if d < |next| then (next, true, d) else Run(next, steps[1..], advance, serialize)
  }

  /** Equal worlds whose test beds step alike stay equal through any steps, and never diverge. */
  lemma {:induction false} RunKeepsEqualWorlds<W(!new), E(!new)>(
    ws: seq<W>, steps: seq<E>, advance: (nat, W, E) -> W, serialize: W -> seq<uint8>)
    requires 1 <= |ws| && AllEqual(ws) && StepsAlike(advance)
    ensures !Run(ws, steps, advance, serialize).1 && AllEqual(Run(ws, steps, advance, serialize).0)
    decreases |steps|
  {
    if steps != [] {
      var next := StepWorlds(ws, steps[0], advance);
      forall i | 0 <= i < |next|
        ensures next[i] == next[0]
      {
        assert next[i] == advance(i, ws[0], steps[0]) == advance(0, ws[0], steps[0]);
      }
      assert FirstDivergent(next, serialize, 1) == |next|;
      RunKeepsEqualWorlds(next, steps[1..], advance, serialize);
    }
  }

  class DeterminismTestSetup<W(==,!new), E(!new)> {
    const worlds: array<W>
    var currentlyViewed: nat
    var divergenceDetected: bool
    var whichDivergent: nat

    predicate Valid()
      reads this
    {
      worlds.Length >= 1 && currentlyViewed < worlds.Length && whichDivergent < worlds.Length
      && (divergenceDetected ==> whichDivergent >= 1)
    }

    /**
     * One world plus the configured number of clones, each populated the same way, so that
     * every world equals world 0 before stepping starts.
     */
    constructor (clonedCount: nat, populated: W)
      ensures Valid() && fresh(worlds) && worlds.Length == 1 + clonedCount
      ensures AllEqual(worlds[..])
      ensures currentlyViewed == 0 && !divergenceDetected && whichDivergent == 0
    {
      worlds := new W[1 + clonedCount](_ => populated);
      currentlyViewed := 0;
      divergenceDetected := false;
      whichDivergent := 0;
    }

    /** F3 shows the next world, wrapping to world 0 after the last. */
    method CycleViewedWorld()
      requires Valid()
      modifies this
      ensures Valid() && currentlyViewed == (old(currentlyViewed) + 1) % worlds.Length
      ensures divergenceDetected == old(divergenceDetected) && whichDivergent == old(whichDivergent)
    {
      currentlyViewed := (currentlyViewed + 1) % worlds.Length;
    }

    /**
     * Steps every world once: each world but the last is first overwritten by a copy of the
     * next one, then stepped by test bed i, so world i ends as test bed i's step of the old
     * world i + 1.
     */
    method StepAllWorlds(input: E, advance: (nat, W, E) -> W)
      requires Valid()
      modifies worlds
      ensures forall i | 0 <= i < worlds.Length - 1 :: worlds[i] == advance(i, old(worlds[i + 1]), input)
      ensures worlds[worlds.Length - 1] == advance(worlds.Length - 1, old(worlds[worlds.Length - 1]), input)
      ensures worlds[..] == StepWorlds(old(worlds[..]), input, advance)
    {
      var n := worlds.Length;
      for i := 0 to n
        invariant forall j | 0 <= j < i && j < n - 1 :: worlds[j] == advance(j, old(worlds[j + 1]), input)
        invariant i == n ==> worlds[n - 1] == advance(n - 1, old(worlds[n - 1]), input)
        invariant forall j | i <= j < n :: worlds[j] == old(worlds[j])
      {
        if i + 1 < n {
          worlds[i] := worlds[i + 1];
        }
        worlds[i] := advance(i, worlds[i], input);
      }
    }

    /**
     * Compares each world's serialized state with world 0's, from world 1 upward, and records
     * the first that differs.
     */
    method DetectDivergence(serialize: W -> seq<uint8>)
      requires Valid() && !divergenceDetected
      modifies this
      ensures Valid() && currentlyViewed == old(currentlyViewed)
      ensures divergenceDetected <==> exists i | 1 <= i < worlds.Length :: serialize(worlds[i]) != serialize(worlds[0])
      ensures divergenceDetected ==>
                serialize(worlds[whichDivergent]) != serialize(worlds[0])
                && forall i | 1 <= i < whichDivergent :: serialize(worlds[i]) == serialize(worlds[0])
      ensures !divergenceDetected ==> whichDivergent == old(whichDivergent)
    {
      var first := serialize(worlds[0]);
      var i := 1;
      while i < worlds.Length
        invariant 1 <= i <= worlds.Length
        invariant forall j | 1 <= j < i :: serialize(worlds[j]) == first
        invariant divergenceDetected == old(divergenceDetected) && whichDivergent == old(whichDivergent)
        invariant currentlyViewed == old(currentlyViewed)
      {
        if serialize(worlds[i]) != first {
          divergenceDetected := true;
          whichDivergent := i;
          return;
        }
        i := i + 1;
      }
    }

    /**
     * The inner loop of one frame: for each unpacked step, stop once divergence is known,
     * otherwise step every world and compare them. Starting without a divergence, the worlds,
     * the verdict and the divergent world are those of `Run`: stepping stops right after the
     * first diverging step. Worlds that start equal and are stepped alike stay equal and no
     * divergence is reported.
     */
    method ProcessSteps(steps: seq<E>, advance: (nat, W, E) -> W, serialize: W -> seq<uint8>)
      requires Valid()
      modifies this, worlds
      ensures Valid() && currentlyViewed == old(currentlyViewed)
      ensures !old(divergenceDetected) ==>
                var r := Run(old(worlds[..]), steps, advance, serialize);
                worlds[..] == r.0 && divergenceDetected == r.1 && (divergenceDetected ==> whichDivergent == r.2)
      ensures !old(divergenceDetected) && AllEqual(old(worlds[..])) && StepsAlike(advance) ==>
                !divergenceDetected && AllEqual(worlds[..])
      ensures old(divergenceDetected) ==> divergenceDetected && whichDivergent == old(whichDivergent) && worlds[..] == old(worlds[..])
      ensures divergenceDetected && !old(divergenceDetected) ==>
                serialize(worlds[whichDivergent]) != serialize(worlds[0])
                && forall i | 1 <= i < whichDivergent :: serialize(worlds[i]) == serialize(worlds[0])
    {
      ghost var r := Run(worlds[..], steps, advance, serialize);
      assert steps[0..] == steps;
      for k := 0 to |steps|
        invariant Valid() && currentlyViewed == old(currentlyViewed)
        invariant old(divergenceDetected) ==> divergenceDetected && whichDivergent == old(whichDivergent) && worlds[..] == old(worlds[..])
        invariant !old(divergenceDetected) && !divergenceDetected ==> Run(worlds[..], steps[k..], advance, serialize) == r
        invariant !old(divergenceDetected) && divergenceDetected ==> worlds[..] == r.0 && r.1 && whichDivergent == r.2
      {
        if divergenceDetected {
          break;
        }
        assert steps[k..][0] == steps[k] && steps[k..][1..] == steps[k + 1..];
        StepAllWorlds(steps[k], advance);
        DetectDivergence(serialize);
      }
      if !old(divergenceDetected) && !divergenceDetected {
        assert steps[|steps|..] == [];
      }
      if !old(divergenceDetected) && AllEqual(old(worlds[..])) && StepsAlike(advance) {
        RunKeepsEqualWorlds(old(worlds[..]), steps, advance, serialize);
      }
    }
  }
}
