/**
 * The `IOC` container: a list of named singletons, appended to by
 * `registerSingleton` and searched by `makeSingleton`. The static array of
 * the source is the field of one `Container` object here, and an instance
 * registered as `null` is `None`.
 */
module IOC {
  import opened Wrappers

  datatype Entry<T> = Entry(instanceName: string, instance: Option<T>)

  /** What `makeSingleton` throws when nothing usable is registered under the name. */
  datatype IOCMakeException = IOCMakeException(instanceName: string)

  /** The first entry with the name and a non-null instance gives the singleton. */
  function Resolve<T>(entries: seq<Entry<T>>, instanceName: string): (r: Result<T, IOCMakeException>)
    ensures r.Failure? ==> r.error == IOCMakeException(instanceName)
    ensures r.Failure? <==> forall k :: 0 <= k < |entries| ==> entries[k].instanceName != instanceName || entries[k].instance.None?
  {
    if |entries| == 0 then Failure(IOCMakeException(instanceName))
    else if entries[0].instanceName == instanceName && entries[0].instance.Some? then Success(entries[0].instance.value)
    else
      var rest := Resolve(entries[1..], instanceName);
      assert forall k :: 0 < k < |entries| ==> entries[k] == entries[1..][k - 1];
      rest
  }

  /** A resolved singleton comes from the first registration of the name that is not null. */
  lemma {:induction false} ResolveFirst<T>(entries: seq<Entry<T>>, instanceName: string)
    requires Resolve(entries, instanceName).Success?
    ensures exists k :: (0 <= k < |entries| && entries[k] == Entry(instanceName, Some(Resolve(entries, instanceName).value)) &&
      forall j :: 0 <= j < k ==> entries[j].instanceName != instanceName || entries[j].instance.None?)
  {
    if entries[0].instanceName == instanceName && entries[0].instance.Some? {
      assert entries[0] == Entry(instanceName, Some(Resolve(entries, instanceName).value));
    } else {
      ResolveFirst(entries[1..], instanceName);
      var k :| 0 <= k < |entries| - 1 && entries[1..][k] == Entry(instanceName, Some(Resolve(entries[1..], instanceName).value)) &&
        forall j :: 0 <= j < k ==> entries[1..][j].instanceName != instanceName || entries[1..][j].instance.None?;
      assert entries[k + 1] == entries[1..][k];
      assert forall j :: 0 < j < k + 1 ==> entries[j] == entries[1..][j - 1];
    }
  }

  /** Registering again never replaces a singleton that already resolves. */
  lemma {:induction false} RegisterKeepsEarlier<T>(entries: seq<Entry<T>>, e: Entry<T>, instanceName: string)
    requires Resolve(entries, instanceName).Success?
    ensures Resolve(entries + [e], instanceName) == Resolve(entries, instanceName)
  {
    if entries[0].instanceName == instanceName && entries[0].instance.Some? {
    } else {
      assert (entries + [e])[1..] == entries[1..] + [e];
      RegisterKeepsEarlier(entries[1..], e, instanceName);
    }
  }

  class Container<T> {
    var singletonInstances: seq<Entry<T>>

    constructor ()
      ensures singletonInstances == []
    {
      singletonInstances := [];
    }

    /** `registerSingleton`: appends, even when the name is already registered. */
    method RegisterSingleton(instanceName: string, instance: Option<T>)
      modifies this
      ensures singletonInstances == old(singletonInstances) + [Entry(instanceName, instance)]
    {
      singletonInstances := singletonInstances + [Entry(instanceName, instance)];
    }

    /** `makeSingleton`: the search loop, returning the instance or the exception it throws. */
    method MakeSingleton(instanceName: string) returns (r: Result<T, IOCMakeException>)
      ensures r == Resolve(singletonInstances, instanceName)
    {
      var i := 0;
      while i < |singletonInstances|
        invariant 0 <= i <= |singletonInstances|
        invariant Resolve(singletonInstances, instanceName) == Resolve(singletonInstances[i..], instanceName)
      {
        assert singletonInstances[i..][1..] == singletonInstances[i + 1..];
        var element := singletonInstances[i];
        if element.instanceName == instanceName && element.instance.Some? {
          return Success(element.instance.value);
        }
        i := i + 1;
      }
      return Failure(IOCMakeException(instanceName));
    }
  }
}
