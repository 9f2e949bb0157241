/**
 * What both generations of the mouse listeners share: the list of hovered
 * objects, looked up and purged by name, and the mouse-out pass that walks
 * that list while removing from it.
 *
 * The mouse-out pass iterates the list and, for each object the cursor has
 * left, calls `onMouseOut` and removes the object by name. Removing shifts
 * the rest of the list down, so the object right after a removed one is
 * not looked at in that pass: the list that remains is `SkipSplice` of the
 * old one.
 */
module Hovering {
  import opened Wrappers
  import opened Objects
  import opened Splicing

  /** The removal test of `removeGameObjectFromAlreadyHoveredList`. */
  function SameName(name: string): GameObject -> bool
  {
    (g: GameObject) => g.name == name
  }

  /** Some entry of the hovered list carries `name`. */
  predicate Listed(hovered: seq<GameObject>, name: string)
  {
    exists i :: 0 <= i < |hovered| && hovered[i].name == name
  }

  /** The membership test of `checkIfGameObjectAlreadyHovered`: a scan of the list by name. */
  method FindListed(hovered: seq<GameObject>, name: string) returns (b: bool)
    ensures b <==> Listed(hovered, name)
  {
    for i := 0 to |hovered|
      invariant forall k :: 0 <= k < i ==> hovered[k].name != name
    {
      if name == hovered[i].name {
        return true;
      }
    }
    return false;
  }

  /** The loop only drops entries, so unique names stay unique. */
  lemma {:induction false} SkipSpliceKeepsDistinctNames(s: seq<GameObject>, matches: GameObject -> bool)
    requires DistinctNames(s)
    ensures DistinctNames(SkipSplice(s, matches))
    decreases |s|
  {
    if |s| == 0 {
    } else if matches(s[0]) {
      if |s| > 1 {
        SkipSpliceKeepsDistinctNames(s[2..], matches);
        SkipSpliceSubset(s[2..], matches);
        var rest := SkipSplice(s[2..], matches);
        forall k | 0 <= k < |rest|
          ensures rest[k].name != s[1].name
        {
          assert rest[k] in rest;
          assert rest[k] in s[2..];
          var j :| 0 <= j < |s[2..]| && s[2..][j] == rest[k];
          assert s[j + 2] == rest[k];
        }
      }
    } else {
      SkipSpliceKeepsDistinctNames(s[1..], matches);
      SkipSpliceSubset(s[1..], matches);
      var rest := SkipSplice(s[1..], matches);
      forall k | 0 <= k < |rest|
        ensures rest[k].name != s[0].name
      {
        assert rest[k] in rest;
        assert rest[k] in s[1..];
        var j :| 0 <= j < |s[1..]| && s[1..][j] == rest[k];
        assert s[j + 1] == rest[k];
      }
    }
  }

  /**
   * `removeGameObjectFromAlreadyHoveredList`: the splice-while-incrementing
   * loop over the list, with the entries of the object's name as matches.
   */
  method RemoveByName(hovered: seq<GameObject>, gameObject: GameObject) returns (r: seq<GameObject>)
    ensures r == SkipSplice(hovered, SameName(gameObject.name))
  {
    r := SpliceWhileIncrementing(hovered, SameName(gameObject.name));
  }

  /**
   * With unique names the removal drops exactly the one entry of that name,
   * and leaves the others in order.
   */
  lemma RemoveByNameOfListed(hovered: seq<GameObject>, i: nat)
    requires DistinctNames(hovered) && i < |hovered|
    ensures SkipSplice(hovered, SameName(hovered[i].name)) == hovered[..i] + hovered[i + 1..]
  {
    SkipSpliceSingleMatch(hovered, SameName(hovered[i].name), i);
  }

  /** A name not in the list: the removal changes nothing. */
  lemma RemoveByNameOfUnlisted(hovered: seq<GameObject>, name: string)
    requires !Listed(hovered, name)
    ensures SkipSplice(hovered, SameName(name)) == hovered
  {
    SkipSpliceNoMatch(hovered, SameName(name));
  }

  /**
   * The `onMouseOut` calls of the mouse-out pass over `hovered`, where
   * `left` tells the objects the cursor is no longer over: one call per
   * removed object, in list order.
   */
  function OutCalls(hovered: seq<GameObject>, left: GameObject -> bool): (r: seq<Call>)
    ensures |r| + |SkipSplice(hovered, left)| == |hovered|
    ensures forall c :: c in r ==> c.OnMouseOut? && c.target in hovered && left(c.target)
    decreases |hovered|
  {
    if |hovered| == 0 then []
    else if left(hovered[0]) then
      [OnMouseOut(hovered[0])] + (if |hovered| == 1 then [] else OutCalls(hovered[2..], left))
    else OutCalls(hovered[1..], left)
  }

  /** An object the cursor is still over keeps its place in the list. */
  lemma {:induction false} StillHoveredStaysListed(hovered: seq<GameObject>, left: GameObject -> bool, g: GameObject)
    requires g in hovered && !left(g)
    ensures g in SkipSplice(hovered, left)
    decreases |hovered|
  {
    if hovered[0] != g {
      if left(hovered[0]) {
        if hovered[1] != g {
          StillHoveredStaysListed(hovered[2..], left, g);
        }
      } else {
        StillHoveredStaysListed(hovered[1..], left, g);
      }
    }
  }

  /**
   * What the mouse-out loop knows after handling the entries before index
   * `i`: the handled prefix of `remaining`, followed by the pass over the
   * rest, is the pass over the whole list. `i` runs one past the end when
   * the last entry was removed.
   */
  ghost predicate OutPassInvariant(hovered: seq<GameObject>, left: GameObject -> bool,
                                   remaining: seq<GameObject>, calls: seq<Call>, i: nat)
  {
    i <= |remaining| + 1 &&
    (i <= |remaining| ==>
      remaining[..i] + SkipSplice(remaining[i..], left) == SkipSplice(hovered, left) &&
      calls + OutCalls(remaining[i..], left) == OutCalls(hovered, left)) &&
    (i == |remaining| + 1 ==> remaining == SkipSplice(hovered, left) && calls == OutCalls(hovered, left))
  }

  /** Removing the entry at `i`, which the cursor has left, keeps the invariant at `i + 1`. */
  lemma OutPassRemoveStep(hovered: seq<GameObject>, left: GameObject -> bool,
                          remaining: seq<GameObject>, calls: seq<Call>, i: nat)
    requires OutPassInvariant(hovered, left, remaining, calls, i)
    requires i < |remaining| && left(remaining[i])
    ensures OutPassInvariant(hovered, left, remaining[..i] + remaining[i + 1..], calls + [OnMouseOut(remaining[i])], i + 1)
  {
    var next := remaining[..i] + remaining[i + 1..];
    SkipSpliceStep(remaining, i, left);
    assert remaining[i..][0] == remaining[i];
    if i + 1 < |remaining| {
      assert remaining[i..][2..] == remaining[i + 2..] == next[i + 1..];
    } else {
      assert next == remaining[..i];
    }
  }

  /** Keeping the entry at `i`, which is still under the cursor, keeps the invariant at `i + 1`. */
  lemma OutPassKeepStep(hovered: seq<GameObject>, left: GameObject -> bool,
                        remaining: seq<GameObject>, calls: seq<Call>, i: nat)
    requires OutPassInvariant(hovered, left, remaining, calls, i)
    requires i < |remaining| && !left(remaining[i])
    ensures OutPassInvariant(hovered, left, remaining, calls, i + 1)
  {
    SkipSpliceStep(remaining, i, left);
    assert remaining[i..][0] == remaining[i];
    assert remaining[i..][1..] == remaining[i + 1..];
  }

  /**
   * The mouse-out pass: walk the list by index; each object the cursor has
   * left gets `onMouseOut` and is removed by name, and the index moves on.
   */
  method MouseOutPass(hovered: seq<GameObject>, left: GameObject -> bool) returns (remaining: seq<GameObject>, calls: seq<Call>)
    requires DistinctNames(hovered)
    ensures remaining == SkipSplice(hovered, left) && DistinctNames(remaining)
    ensures calls == OutCalls(hovered, left)
  {
    remaining := hovered;
    calls := [];
    var i := 0;
    assert remaining[..0] + SkipSplice(remaining[0..], left) == SkipSplice(hovered, left) by {
      assert remaining[0..] == hovered;
    }
    while i < |remaining|
      invariant OutPassInvariant(hovered, left, remaining, calls, i)
      invariant DistinctNames(remaining)
    {
      var g := remaining[i];
      if left(g) {
        OutPassRemoveStep(hovered, left, remaining, calls, i);
        RemoveByNameOfListed(remaining, i);
        SkipSpliceKeepsDistinctNames(remaining, SameName(g.name));
        calls := calls + [OnMouseOut(g)];
        remaining := RemoveByName(remaining, g);
      } else {
        OutPassKeepStep(hovered, left, remaining, calls, i);
      }
      i := i + 1;
    }
    if i == |remaining| {
      assert remaining[..i] == remaining && remaining[i..] == [];
    }
  }

  /** The index of the first entry of `s` satisfying `p`, if any. */
  function FirstWhere(s: seq<GameObject>, p: GameObject -> bool): (r: Option<nat>)
    ensures r.None? <==> forall i :: 0 <= i < |s| ==> !p(s[i])
    ensures r.Some? ==> r.value < |s| && p(s[r.value])
    ensures r.Some? ==> forall i :: 0 <= i < r.value ==> !p(s[i])
  {
    if |s| == 0 then None
    else if p(s[0]) then Some(0)
    else match FirstWhere(s[1..], p)
      case None => None
      case Some(k) => Some(k + 1)
  }
}
