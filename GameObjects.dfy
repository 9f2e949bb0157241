/**
 * `GameObjectsManager`: the registry of live game objects, kept in the
 * order they were instantiated until `getAll` sorts it, and the queue of
 * objects whose `start` has not been called yet.
 *
 * Both generations of the manager are the one class below; they differ
 * only in `destroyAll` (`DestroyAll` for the current one, `LegacyDestroyAll`
 * for the older one).
 */
module GameObjects {
  import opened Wrappers
  import opened Objects
  import opened Splicing
  import Events

  /** The index of the first entry named `name`, if any. */
  function FirstNamed(s: seq<GameObject>, name: string): (r: Option<nat>)
    ensures r.None? <==> forall i :: 0 <= i < |s| ==> s[i].name != name
    ensures r.Some? ==> r.value < |s| && s[r.value].name == name
    ensures r.Some? ==> forall i :: 0 <= i < r.value ==> s[i].name != name
  {
    if |s| == 0 then None
    else if s[0].name == name then Some(0)
    else match FirstNamed(s[1..], name)
      case None => None
      case Some(k) => Some(k + 1)
  }

  /** `s` without its entry at `k`: what `splice(k, 1)` leaves. */
  function RemoveAt(s: seq<GameObject>, k: nat): (r: seq<GameObject>)
    requires k < |s|
    ensures |r| == |s| - 1
    ensures forall i :: 0 <= i < k ==> r[i] == s[i]
    ensures forall i :: k <= i < |r| ==> r[i] == s[i + 1]
  {
    s[..k] + s[k + 1..]
  }

  /**
   * When names are unique, destroying by name leaves no entry with that
   * name, so a second `destroy` of the same object finds nothing.
   */
  lemma DestroyedNameIsGone(s: seq<GameObject>, name: string)
    requires DistinctNames(s)
    requires FirstNamed(s, name).Some?
    ensures FirstNamed(RemoveAt(s, FirstNamed(s, name).value), name).None?
  {
    var k := FirstNamed(s, name).value;
    var r := RemoveAt(s, k);
    forall i | 0 <= i < |r|
      ensures r[i].name != name
    {
      if i >= k {
        assert r[i] == s[i + 1] && k < i + 1;
      }
    }
  }

  /** Rendering layers never increase along `s`. */
  predicate SortedByLayer(s: seq<GameObject>)
  {
    forall i, j :: 0 <= i < j < |s| ==> s[i].renderingLayer >= s[j].renderingLayer
  }

  /** Prepending an entry no lower than the head keeps a sorted sequence sorted. */
  lemma SortedCons(x: GameObject, t: seq<GameObject>)
    requires SortedByLayer(t)
    requires |t| > 0 ==> x.renderingLayer >= t[0].renderingLayer
    ensures SortedByLayer([x] + t)
  {
    var r := [x] + t;
    forall i, j | 0 <= i < j < |r|
      ensures r[i].renderingLayer >= r[j].renderingLayer
    {
      if i == 0 && j > 1 {
        assert r[j] == t[j - 1] && t[0].renderingLayer >= t[j - 1].renderingLayer;
      }
    }
  }

  /** Puts `g` in front of the first entry on a lower layer. */
  function InsertByLayer(g: GameObject, s: seq<GameObject>): (r: seq<GameObject>)
    requires SortedByLayer(s)
    ensures SortedByLayer(r)
    ensures multiset(r) == multiset(s) + multiset{g}
    ensures |r| > 0 && (r[0] == g || (|s| > 0 && r[0] == s[0]))
  {
    if |s| == 0 then [g]
    else if g.renderingLayer >= s[0].renderingLayer then
      SortedCons(g, s);
      [g] + s
    else
      var rest := InsertByLayer(g, s[1..]);
      assert s == [s[0]] + s[1..];
      assert |s| > 1 ==> s[0].renderingLayer >= s[1].renderingLayer;
      SortedCons(s[0], rest);
      [s[0]] + rest
  }

  /**
   * A sort into non-increasing `renderingLayer`. Any such permutation is
   * what `getAll` may store: its comparator answers -1 for equal layers
   * both ways, so the order among equal layers is not fixed.
   */
  function SortByLayer(s: seq<GameObject>): (r: seq<GameObject>)
    ensures SortedByLayer(r)
    ensures multiset(r) == multiset(s)
  {
    if |s| == 0 then []
    else
      assert s == [s[0]] + s[1..];
      InsertByLayer(s[0], SortByLayer(s[1..]))
  }

  class GameObjectsManager {
    const eventManager: Events.EventManager
    var gameObjects: seq<GameObject>
    /** `listOfGameObjectsWhereStartShouldBeCalled`. */
    var startQueue: seq<GameObject>

    constructor (eventManager: Events.EventManager)
      ensures this.eventManager == eventManager && gameObjects == [] && startQueue == []
    {
      this.eventManager := eventManager;
      gameObjects := [];
      startQueue := [];
    }

    /** `instantiate`: the object joins the registry and the start queue, and is returned. */
    method Instantiate(gameObject: GameObject) returns (r: GameObject)
      modifies this
      ensures gameObjects == old(gameObjects) + [gameObject]
      ensures startQueue == old(startQueue) + [gameObject]
      ensures r == gameObject
    {
      gameObjects := gameObjects + [gameObject];
      startQueue := startQueue + [gameObject];
      return gameObject;
    }

    /**
     * `destroy`: the first entry with the object's name leaves the
     * registry, the event manager drops the name's listeners, and the entry
     * is returned. Without such an entry nothing changes. The start queue is
     * never touched.
     */
    method Destroy(gameObject: GameObject) returns (r: Option<GameObject>)
      modifies this, eventManager
      ensures startQueue == old(startQueue)
      ensures FirstNamed(old(gameObjects), gameObject.name).None? ==>
        r.None? && gameObjects == old(gameObjects) && eventManager.eventListeners == old(eventManager.eventListeners)
      ensures FirstNamed(old(gameObjects), gameObject.name).Some? ==>
        var k := FirstNamed(old(gameObjects), gameObject.name).value;
        r == Some(old(gameObjects)[k]) &&
        gameObjects == RemoveAt(old(gameObjects), k) &&
        eventManager.eventListeners == Events.Purged(old(eventManager.eventListeners), gameObject.name)
    {
      var i := 0;
      while i < |gameObjects|
        invariant 0 <= i <= |gameObjects|
        invariant gameObjects == old(gameObjects)
        invariant forall j :: 0 <= j < i ==> gameObjects[j].name != gameObject.name
      {
        if gameObjects[i].name == gameObject.name {
          var copy := gameObjects[i];
          gameObjects := RemoveAt(gameObjects, i);
          eventManager.RemoveEventListenerByGameObject(gameObject);
          return Some(copy);
        }
        i := i + 1;
      }
      return None;
    }

    /** `destroyAll` of the current manager: the registry is emptied; queue and listeners stay. */
    method DestroyAll()
      modifies this
      ensures gameObjects == [] && startQueue == old(startQueue)
    {
      gameObjects := [];
    }

    /**
     * `destroyAll` of the older manager: it splices at `i` while `i`
     * advances, so it removes the entries at positions 0, 2, 4, … and keeps
     * the odd-indexed half.
     */
    method LegacyDestroyAll()
      modifies this
      ensures gameObjects == OddIndexed(old(gameObjects)) && startQueue == old(startQueue)
    {
      var always := (g: GameObject) => true;
      SkipSpliceAll(gameObjects, always);
      gameObjects := SpliceWhileIncrementing(gameObjects, always);
    }

    /** `getAll`: the registry is reordered by non-increasing rendering layer and returned. */
    method GetAll() returns (r: seq<GameObject>)
      modifies this
      ensures SortedByLayer(gameObjects) && multiset(gameObjects) == multiset(old(gameObjects))
      ensures r == gameObjects && startQueue == old(startQueue)
    {
      gameObjects := SortByLayer(gameObjects);
      return gameObjects;
    }

    /** `getByName`: the first registered object with that name, or nothing. */
    method GetByName(name: string) returns (r: Option<GameObject>)
      ensures r.None? <==> FirstNamed(gameObjects, name).None?
      ensures r.Some? ==> r.value == gameObjects[FirstNamed(gameObjects, name).value]
    {
      var i := 0;
      while i < |gameObjects|
        invariant 0 <= i <= |gameObjects|
        invariant forall j :: 0 <= j < i ==> gameObjects[j].name != name
      {
        if gameObjects[i].name == name {
          assert FirstNamed(gameObjects, name) == Some(i);
          return Some(gameObjects[i]);
        }
        i := i + 1;
      }
      return None;
    }

    /**
     * `callStartMethodOfInstantiatedGameObjects`: `start` once per queued
     * object, in queue order; then the queue is empty, so a second call at
     * once starts nothing.
     */
    method CallStartMethodOfInstantiatedGameObjects() returns (calls: seq<Call>)
      modifies this
      ensures |calls| == |old(startQueue)|
      ensures forall i :: 0 <= i < |calls| ==> calls[i] == Start(old(startQueue)[i])
      ensures startQueue == [] && gameObjects == old(gameObjects)
    {
      calls := [];
      var i := 0;
      while i < |startQueue|
        invariant 0 <= i <= |startQueue| && |calls| == i
        invariant forall k :: 0 <= k < i ==> calls[k] == Start(startQueue[k])
      {
        calls := calls + [Start(startQueue[i])];
        i := i + 1;
      }
      startQueue := [];
    }
  }

  /** The older `destroyAll` on two objects leaves the second one registered. */
  lemma LegacyDestroyAllLeavesSecond(a: GameObject, b: GameObject)
    ensures OddIndexed([a, b]) == [b]
  {
    assert [a, b][2..] == [];
  }
}
