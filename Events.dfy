/**
 * `EventManager`: named lists of listeners, each a game object and a
 * callback, with registration, dispatch and the purge run when an object
 * is destroyed.
 *
 * Callbacks are opaque: a listener carries an identifier standing for its
 * function, and a dispatch returns the invocations it makes, in order,
 * instead of running them.
 */
module Events {
  import opened Objects
  import opened Splicing

  /** Stands for the callback function a listener registered. */
  type CallbackId = nat

  datatype Listener = Listener(gameObject: GameObject, callback: CallbackId)

  /** One callback invoked with the dispatched data. */
  datatype Invocation<D> = Invocation(callback: CallbackId, data: D)

  /** The listener test of the purge: the entry belongs to an object named `name`. */
  function OwnedBy(name: string): Listener -> bool
  {
    (l: Listener) => l.gameObject.name == name
  }

  /** The complement of `OwnedBy(name)`: the entries the purge must keep. */
  function NotOwnedBy(name: string): Listener -> bool
  {
    (l: Listener) => l.gameObject.name != name
  }

  /**
   * The listener map after `removeEventListenerByGameObject`: every list is
   * run through the splice-while-incrementing loop, and no key is deleted,
   * even when its list becomes empty.
   */
  function Purged(listeners: map<string, seq<Listener>>, name: string): (r: map<string, seq<Listener>>)
    ensures r.Keys == listeners.Keys
    ensures forall e :: e in r ==> r[e] == SkipSplice(listeners[e], OwnedBy(name))
  {
    map e | e in listeners :: SkipSplice(listeners[e], OwnedBy(name))
  }

  /**
   * The purge never removes a listener of another object: in every list
   * those keep their order, and none is lost.
   */
  lemma PurgeKeepsOtherObjects(listeners: map<string, seq<Listener>>, name: string, e: string)
    requires e in listeners
    ensures e in Purged(listeners, name)
    ensures Filter(Purged(listeners, name)[e], NotOwnedBy(name)) == Filter(listeners[e], NotOwnedBy(name))
  {
    SkipSpliceKeepsNonMatching(listeners[e], OwnedBy(name), NotOwnedBy(name));
  }

  /**
   * Two listeners of the object next to each other, the first being the
   * first of the list, leave the second one registered.
   */
  lemma PurgeLeavesSecondOfAdjacentPair(listeners: map<string, seq<Listener>>, name: string, e: string, k: nat)
    requires e in listeners && k + 1 < |listeners[e]|
    requires listeners[e][k].gameObject.name == name && listeners[e][k + 1].gameObject.name == name
    requires forall i :: 0 <= i < k ==> listeners[e][i].gameObject.name != name
    ensures e in Purged(listeners, name)
    ensures listeners[e][k + 1] in Purged(listeners, name)[e]
  {
    SkipSpliceSkipsNext(listeners[e], OwnedBy(name), k);
  }

  /** A purge of an object whose single listener is in a list removes exactly that entry. */
  lemma PurgeOfSingleListener(listeners: map<string, seq<Listener>>, name: string, e: string, k: nat)
    requires e in listeners && k < |listeners[e]| && listeners[e][k].gameObject.name == name
    requires forall i :: 0 <= i < |listeners[e]| && i != k ==> listeners[e][i].gameObject.name != name
    ensures e in Purged(listeners, name)
    ensures Purged(listeners, name)[e] == listeners[e][..k] + listeners[e][k + 1..]
  {
    SkipSpliceSingleMatch(listeners[e], OwnedBy(name), k);
  }

  class EventManager {
    var eventListeners: map<string, seq<Listener>>

    constructor ()
      ensures eventListeners == map[]
    {
      eventListeners := map[];
    }

    /**
     * `listenForEvent`: the listener goes to the end of the list for the
     * name, which is created when absent; nothing else changes.
     */
    method ListenForEvent(gameObject: GameObject, eventName: string, callback: CallbackId)
      modifies this
      ensures eventName in eventListeners
      ensures eventListeners[eventName] ==
        (if eventName in old(eventListeners) then old(eventListeners)[eventName] else []) + [Listener(gameObject, callback)]
      ensures forall e :: e != eventName ==> (e in eventListeners <==> e in old(eventListeners))
      ensures forall e :: e != eventName && e in eventListeners ==> eventListeners[e] == old(eventListeners)[e]
    {
      if eventName in eventListeners {
        eventListeners := eventListeners[eventName := eventListeners[eventName] + [Listener(gameObject, callback)]];
      } else {
        eventListeners := eventListeners[eventName := [Listener(gameObject, callback)]];
      }
    }

    /**
     * `dispatchEvent`: nothing for a name without a list; otherwise every
     * registered callback once, in registration order, with `data`.
     */
    method DispatchEvent<D>(eventName: string, data: D) returns (calls: seq<Invocation<D>>)
      ensures eventName !in eventListeners ==> calls == []
      ensures eventName in eventListeners ==>
        |calls| == |eventListeners[eventName]| &&
        forall i :: 0 <= i < |calls| ==> calls[i] == Invocation(eventListeners[eventName][i].callback, data)
    {
      calls := [];
      if eventName !in eventListeners {
        return;
      }
      var listeners := eventListeners[eventName];
      var i := 0;
      while i < |listeners|
        invariant 0 <= i <= |listeners| && |calls| == i
        invariant forall k :: 0 <= k < i ==> calls[k] == Invocation(listeners[k].callback, data)
      {
        calls := calls + [Invocation(listeners[i].callback, data)];
        i := i + 1;
      }
    }

    /** `removeEventListenerByGameObject`: every list is purged of the object's entries by name. */
    method RemoveEventListenerByGameObject(gameObject: GameObject)
      modifies this
      ensures eventListeners == Purged(old(eventListeners), gameObject.name)
    {
      ghost var before := eventListeners;
      var remaining := eventListeners.Keys;
      while remaining != {}
        invariant eventListeners.Keys == before.Keys && remaining <= before.Keys
        invariant forall e :: e in eventListeners ==>
          eventListeners[e] == (if e in remaining then before[e] else SkipSplice(before[e], OwnedBy(gameObject.name)))
        decreases remaining
      {
        var e :| e in remaining;
        var purged := SpliceWhileIncrementing(eventListeners[e], OwnedBy(gameObject.name));
        eventListeners := eventListeners[e := purged];
        remaining := remaining - {e};
      }
      assert eventListeners.Keys == Purged(before, gameObject.name).Keys;
    }
  }
}
