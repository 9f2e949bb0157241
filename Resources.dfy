/**
 * The `ResourceLoader` queues: images, fonts, sounds and locale files
 * queued by URL under a name derived from the URL, looked up by name once
 * loaded, and counted while loading.
 *
 * The fetching and decoding themselves (images, fonts, audio buffers, JSON)
 * are asynchronous browser work and are left out: `LoadAllResources`
 * returns the entries it would start loading, and `FinishLoad` is what the
 * completion callback of one of them does. A locale file's payload is kept
 * as a map from translation key to a map from language to text.
 */
module Resources {
  import opened Wrappers

  datatype ResourceKind = Image | Font | Sound | Locale

  /** One queued resource; `translations` is only filled for a loaded locale file. */
  datatype Resource = Resource(name: string, url: string, loaded: bool, translations: map<string, map<string, string>>)

  /** The two exceptions a lookup can throw. */
  datatype LookupError = NotLoaded | NotFound(name: string)

  /** `url.split('/').pop()`: the part after the last '/', or the whole URL when it has none. */
  function AfterLastSlash(url: string): (r: string)
    ensures '/' !in r
    ensures |r| <= |url|
  {
    if |url| == 0 then []
    else if url[|url| - 1] == '/' then []
    else AfterLastSlash(url[..|url| - 1]) + [url[|url| - 1]]
  }

  /**
   * The segment after the last '/' is a suffix of the URL, and it is the
   * longest one without '/': either the whole URL or preceded by a '/'.
   */
  lemma {:induction false} AfterLastSlashIsSuffix(url: string)
    ensures AfterLastSlash(url) == url[|url| - |AfterLastSlash(url)|..]
    ensures AfterLastSlash(url) == url || url[|url| - |AfterLastSlash(url)| - 1] == '/'
    decreases |url|
  {
    if |url| > 0 && url[|url| - 1] != '/' {
      var init := url[..|url| - 1];
      AfterLastSlashIsSuffix(init);
      assert init[|init| - |AfterLastSlash(init)|..] + [url[|url| - 1]] == url[|url| - |AfterLastSlash(url)|..];
    }
  }

  /** `s.split('.').shift()`: the part before the first '.', or all of `s` when it has none. */
  function BeforeFirstDot(s: string): (r: string)
    ensures '.' !in r
    ensures r <= s
    ensures r == s || s[|r|] == '.'
  {
    if |s| == 0 then []
    else if s[0] == '.' then []
    else [s[0]] + BeforeFirstDot(s[1..])
  }

  /** The resource name derived from its URL: the last path segment cut at its first '.'. */
  function DeriveName(url: string): (name: string)
    ensures '/' !in name && '.' !in name
  {
    var segment := AfterLastSlash(url);
    var name := BeforeFirstDot(segment);
    assert forall c :: c in name ==> c in segment;
    name
  }

  /**
   * The lookup loop of `get*ByName`: walking the queue in order, the first
   * entry that is not loaded throws "not loaded", the first loaded entry
   * with the name is returned (here: its index), and reaching the end
   * throws "not found".
   */
  function Find(queue: seq<Resource>, name: string): (r: Result<nat, LookupError>)
    ensures r.Success? ==> r.value < |queue| && queue[r.value].name == name
    ensures r.Success? ==> forall j :: 0 <= j <= r.value ==> queue[j].loaded
    ensures r.Success? ==> forall j :: 0 <= j < r.value ==> queue[j].name != name
    ensures r.Failure? ==> r.error == NotLoaded || r.error == NotFound(name)
  {
    if |queue| == 0 then Failure(NotFound(name))
    else if !queue[0].loaded then Failure(NotLoaded)
    else if queue[0].name == name then Success(0)
    else
      match Find(queue[1..], name)
      case Success(i) => Success(i + 1)
      case Failure(e) => Failure(e)
  }

  /** The lookup as the callers see it: the entry itself or the exception. */
  function Lookup(queue: seq<Resource>, name: string): Result<Resource, LookupError>
  {
    match Find(queue, name)
    case Success(i) => Success(queue[i])
    case Failure(e) => Failure(e)
  }

  /** Entry `k` is not loaded, and every entry before it is loaded and has another name. */
  ghost predicate UnloadedFirst(queue: seq<Resource>, name: string, k: int)
  {
    0 <= k < |queue| && !queue[k].loaded && forall j :: 0 <= j < k ==> queue[j].loaded && queue[j].name != name
  }

  /** Past a loaded entry with another name, the condition moves one place along the queue. */
  lemma UnloadedFirstShift(queue: seq<Resource>, name: string, k: int)
    requires |queue| > 0 && queue[0].loaded && queue[0].name != name
    ensures UnloadedFirst(queue[1..], name, k) <==> UnloadedFirst(queue, name, k + 1)
  {
    if UnloadedFirst(queue, name, k + 1) {
      forall j | 0 <= j < k
        ensures queue[1..][j].loaded && queue[1..][j].name != name
      {
        assert queue[1..][j] == queue[j + 1];
      }
    }
    if UnloadedFirst(queue[1..], name, k) {
      forall j | 0 <= j < k + 1
        ensures queue[j].loaded && queue[j].name != name
      {
        if j > 0 { assert queue[j] == queue[1..][j - 1]; }
      }
    }
  }

  /**
   * "Not loaded" is thrown exactly when an unloaded entry comes before
   * every entry with the name, even when a later entry would match.
   */
  lemma {:induction false} FindNotLoaded(queue: seq<Resource>, name: string)
    ensures Find(queue, name) == Failure(NotLoaded) <==> exists k :: UnloadedFirst(queue, name, k)
  {
    if |queue| == 0 {
    } else if !queue[0].loaded {
      assert UnloadedFirst(queue, name, 0);
    } else if queue[0].name == name {
    } else {
      FindNotLoaded(queue[1..], name);
      if Find(queue, name) == Failure(NotLoaded) {
        var k :| UnloadedFirst(queue[1..], name, k);
        UnloadedFirstShift(queue, name, k);
      }
      if exists k :: UnloadedFirst(queue, name, k) {
        var k :| UnloadedFirst(queue, name, k);
        UnloadedFirstShift(queue, name, k - 1);
      }
    }
  }

  /** "Not found" is thrown exactly when every entry is loaded and none has the name. */
  lemma {:induction false} FindNotFound(queue: seq<Resource>, name: string)
    ensures Find(queue, name) == Failure(NotFound(name)) <==>
      forall j :: 0 <= j < |queue| ==> queue[j].loaded && queue[j].name != name
  {
    if |queue| == 0 {
    } else if !queue[0].loaded {
    } else if queue[0].name == name {
    } else {
      FindNotFound(queue[1..], name);
      assert forall j :: 0 < j < |queue| ==> queue[j] == queue[1..][j - 1];
    }
  }

  /** Queuing more entries never changes a lookup that already succeeded or hit an unloaded entry. */
  lemma {:induction false} FindAfterAppend(queue: seq<Resource>, extra: seq<Resource>, name: string)
    requires Find(queue, name).Success? || Find(queue, name) == Failure(NotLoaded)
    ensures Find(queue + extra, name) == Find(queue, name)
  {
    if |queue| == 0 {
    } else if !queue[0].loaded {
    } else if queue[0].name == name {
    } else {
      assert (queue + extra)[1..] == queue[1..] + extra;
      FindAfterAppend(queue[1..], extra, name);
    }
  }

  /** When every entry up to `i` is loaded and `i` is the first with its name, the lookup returns `i`. */
  lemma {:induction false} FindFirstLoaded(queue: seq<Resource>, i: nat)
    requires i < |queue|
    requires forall j :: 0 <= j <= i ==> queue[j].loaded
    requires forall j :: 0 <= j < i ==> queue[j].name != queue[i].name
    ensures Find(queue, queue[i].name) == Success(i)
  {
    if i > 0 {
      assert forall j :: 0 <= j < i ==> queue[1..][j] == queue[j + 1];
      FindFirstLoaded(queue[1..], i - 1);
    }
  }

  /** The entries not yet loaded, in queue order. */
  function Pending(queue: seq<Resource>): (p: seq<Resource>)
    ensures |p| <= |queue|
    ensures forall r :: r in p <==> r in queue && !r.loaded
  {
    if |queue| == 0 then []
    else if queue[0].loaded then Pending(queue[1..])
    else [queue[0]] + Pending(queue[1..])
  }

  lemma {:induction false} PendingAppend(queue: seq<Resource>, r: Resource)
    ensures Pending(queue + [r]) == Pending(queue) + (if r.loaded then [] else [r])
  {
    if |queue| == 0 {
      assert queue + [r] == [r];
    } else {
      assert (queue + [r])[1..] == queue[1..] + [r];
      PendingAppend(queue[1..], r);
    }
  }

  /** Entry `i` of `queue` marked as loaded, with `translations` as its payload. */
  function MarkLoaded(queue: seq<Resource>, i: nat, translations: map<string, map<string, string>>): (q: seq<Resource>)
    requires i < |queue|
    ensures |q| == |queue| && q[i].loaded && q[i].name == queue[i].name && q[i].url == queue[i].url
    ensures forall j :: 0 <= j < |queue| && j != i ==> q[j] == queue[j]
  {
    queue[i := queue[i].(loaded := true, translations := translations)]
  }

  /** Marking an entry as loaded only removes it from the pending entries. */
  lemma {:induction false} MarkLoadedShrinksPending(queue: seq<Resource>, i: nat, translations: map<string, map<string, string>>)
    requires i < |queue| && !queue[i].loaded
    ensures |Pending(MarkLoaded(queue, i, translations))| + 1 == |Pending(queue)|
  {
    if i == 0 {
      assert MarkLoaded(queue, i, translations)[1..] == queue[1..];
    } else {
      assert MarkLoaded(queue, i, translations)[1..] == MarkLoaded(queue[1..], i - 1, translations);
      MarkLoadedShrinksPending(queue[1..], i - 1, translations);
    }
  }

  /** The four queues and the progress counters of the loader. */
  class ResourceLoader {
    var images: seq<Resource>
    var fonts: seq<Resource>
    var sounds: seq<Resource>
    var locales: seq<Resource>
    var totalResourcesToLoad: nat
    var alreadyLoadedResources: nat

    constructor ()
      ensures images == [] && fonts == [] && sounds == [] && locales == []
      ensures totalResourcesToLoad == 0 && alreadyLoadedResources == 0
    {
      images, fonts, sounds, locales := [], [], [], [];
      totalResourcesToLoad, alreadyLoadedResources := 0, 0;
    }

    function Queue(kind: ResourceKind): seq<Resource>
      reads this
    {
      match kind
      case Image => images
      case Font => fonts
      case Sound => sounds
      case Locale => locales
    }

    /** `add*ToQueue`: appends one unloaded entry named after the URL; the other queues stay as they were. */
    method AddToQueue(kind: ResourceKind, url: string)
      modifies this
      ensures Queue(kind) == old(Queue(kind)) + [Resource(DeriveName(url), url, false, map[])]
      ensures kind != Image ==> images == old(images)
      ensures kind != Font ==> fonts == old(fonts)
      ensures kind != Sound ==> sounds == old(sounds)
      ensures kind != Locale ==> locales == old(locales)
      ensures totalResourcesToLoad == old(totalResourcesToLoad) && alreadyLoadedResources == old(alreadyLoadedResources)
    {
      var entry := Resource(DeriveName(url), url, false, map[]);
      match kind {
        case Image => images := images + [entry];
        case Font => fonts := fonts + [entry];
        case Sound => sounds := sounds + [entry];
        case Locale => locales := locales + [entry];
      }
    }

    /** `get*ByName`: the scan in queue order, returning the entry or the exception it throws. */
    method GetByName(kind: ResourceKind, name: string) returns (r: Result<Resource, LookupError>)
      ensures r == Lookup(Queue(kind), name)
    {
      var queue := Queue(kind);
      var i := 0;
      while i < |queue|
        invariant 0 <= i <= |queue|
        invariant Find(queue, name) == (match Find(queue[i..], name)
                                         case Success(k) => Success(k + i)
                                         case Failure(e) => Failure(e))
      {
        assert queue[i..][1..] == queue[i + 1..];
        if !queue[i].loaded {
          return Failure(NotLoaded);
        }
        if queue[i].name == name {
          return Success(queue[i]);
        }
        i := i + 1;
      }
      return Failure(NotFound(name));
    }

    /**
     * The synchronous part of `loadAllResources`: every queued entry is
     * counted in `totalResourcesToLoad`, and loads are started, in queue
     * order, only for the entries not loaded yet.
     */
    method LoadAllResources() returns (started: seq<Resource>)
      modifies this
      ensures totalResourcesToLoad == |images| + |fonts| + |sounds| + |locales|
      ensures started == Pending(images) + Pending(fonts) + Pending(sounds) + Pending(locales)
      ensures images == old(images) && fonts == old(fonts) && sounds == old(sounds) && locales == old(locales)
      ensures alreadyLoadedResources == old(alreadyLoadedResources)
    {
      totalResourcesToLoad := |images| + |fonts| + |sounds| + |locales|;
      var p1 := CollectPending(images);
      var p2 := CollectPending(fonts);
      var p3 := CollectPending(sounds);
      var p4 := CollectPending(locales);
      started := p1 + p2 + p3 + p4;
    }

    /** What a load's completion does: the entry is marked loaded (with its payload) and progress is counted. */
    method FinishLoad(kind: ResourceKind, i: nat, translations: map<string, map<string, string>>)
      requires i < |Queue(kind)|
      modifies this
      ensures Queue(kind) == MarkLoaded(old(Queue(kind)), i, translations)
      ensures kind != Image ==> images == old(images)
      ensures kind != Font ==> fonts == old(fonts)
      ensures kind != Sound ==> sounds == old(sounds)
      ensures kind != Locale ==> locales == old(locales)
      ensures alreadyLoadedResources == old(alreadyLoadedResources) + 1
      ensures totalResourcesToLoad == old(totalResourcesToLoad)
    {
      match kind {
        case Image => images := MarkLoaded(images, i, translations);
        case Font => fonts := MarkLoaded(fonts, i, translations);
        case Sound => sounds := MarkLoaded(sounds, i, translations);
        case Locale => locales := MarkLoaded(locales, i, translations);
      }
      alreadyLoadedResources := alreadyLoadedResources + 1;
    }
  }

  /** One of the skip-loaded loops of `loadAllResources`. */
  method CollectPending(queue: seq<Resource>) returns (p: seq<Resource>)
    ensures p == Pending(queue)
  {
    p := [];
    var i := 0;
    while i < |queue|
      invariant 0 <= i <= |queue|
      invariant p == Pending(queue[..i])
    {
      assert queue[..i + 1] == queue[..i] + [queue[i]];
      PendingAppend(queue[..i], queue[i]);
      if !queue[i].loaded {
        p := p + [queue[i]];
      }
      i := i + 1;
    }
    assert queue[..i] == queue;
  }
}
