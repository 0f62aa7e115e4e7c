/**
 * `RedisResponseCacheMiddleware` (app/cache.py:204-341): the expiry it uses,
 * the response key, the header filter, and the read and mutation paths over a
 * `CacheStore.Store`. The downstream handler is an input: the response it would
 * produce. Store failures on the read path are inputs too (`Conditions`): a
 * failed `GET`, `SETEX` or tag pipeline is caught, a failed `DEL` of an entry
 * that does not decode is not, and the request then fails (`Raised`).
 */
module ResponseCache {
  import opened Wrappers
  import opened Text
  import opened Tags
  import opened CacheStore

  const DefaultCacheTtl: int := 60

  /** The retry budget `_handle_mutation` leaves `_invalidate_tag_set` at (its default). */
  const InvalidationRetries: int := 2

  const SafeMethods: set<string> := {"GET"}

  const SkipHeaders: set<string> := {"content-length", "date", "server"}

  const CacheHeader: string := "x-cache"

  // ---------------------------------------------------------------------------
  // Expiry.
  // ---------------------------------------------------------------------------

  /** `_cache_ttl`, given the value of `COMICS_CACHE_TTL_SECONDS` (None when unset). */
  function CacheTtl(raw: Option<string>): (r: int)
    ensures r >= 1
    ensures raw.None? || raw == Some("") ==> r == DefaultCacheTtl
  {
    if raw.None? || raw.value == "" then DefaultCacheTtl
    else match ParseInt(raw.value)
      case None => DefaultCacheTtl
      case Some(v) => if v > 1 then v else 1
  }

  /** An integer written in decimal is taken, raised to 1 when smaller. */
  lemma CacheTtlOfInteger(n: int)
    ensures CacheTtl(Some(IntToString(n))) == if n > 1 then n else 1
  {
    ParseIntToString(n);
  }

  /** Text that is not an integer falls back to the default. */
  lemma CacheTtlOfGarbage(raw: string)
    requires ParseInt(raw).None?
    ensures CacheTtl(Some(raw)) == DefaultCacheTtl
  {
  }

  /** `cache_ttl_seconds or _cache_ttl()`: a given non-zero value is used as is. */
  function EffectiveTtl(configured: Option<int>, env: Option<string>): (r: int)
    ensures configured.None? || configured == Some(0) ==> r >= 1
    ensures configured.Some? && configured.value != 0 ==> r == configured.value
  {
    if configured.Some? && configured.value != 0 then configured.value else CacheTtl(env)
  }

  // ---------------------------------------------------------------------------
  // Requests, responses and headers.
  // ---------------------------------------------------------------------------

  datatype Request = Request(verb: string, path: string, query: string, headers: seq<(string, string)>)

  datatype Response = Response(status: int, mediaType: Option<string>, headers: seq<(string, string)>, body: seq<byte>)

  /** `request.headers.get(name)`: the first header with that name, ignoring case. */
  function HeaderGet(hs: seq<(string, string)>, name: string): Option<string>
    decreases |hs|
  {
    if hs == [] then None
    else if Lower(hs[0].0) == Lower(name) then Some(hs[0].1)
    else HeaderGet(hs[1..], name)
  }

  /** `_cache_key`: the digest is abstract, so the key is the descriptor it digests. */
  function CacheKey(req: Request): Fingerprint {
    Fingerprint(req.verb, req.path, req.query, HeaderGet(req.headers, "accept"))
  }

  /** Two requests share a key exactly when method, path, query and accept header agree. */
  lemma CacheKeyIdentifies(a: Request, b: Request)
    ensures CacheKey(a) == CacheKey(b) <==>
            a.verb == b.verb && a.path == b.path && a.query == b.query
            && HeaderGet(a.headers, "accept") == HeaderGet(b.headers, "accept")
  {
  }

  /** The values of the headers named `name`, in order. */
  function ValuesOf(hs: seq<(string, string)>, name: string): seq<string>
    decreases |hs|
  {
    if hs == [] then []
    else (if hs[0].0 == name then [hs[0].1] else []) + ValuesOf(hs[1..], name)
  }

  /** Assigning a header: the first pair named `key` takes the value and later ones are dropped. */
  function ReplaceHeader(hs: seq<(string, string)>, key: string, value: string, found: bool): (r: seq<(string, string)>)
    ensures ValuesOf(r, key) == if found then [] else [value]
    ensures forall n :: n != key ==> ValuesOf(r, n) == ValuesOf(hs, n)
    decreases |hs|
  {
    if hs == [] then (if found then [] else [(key, value)])
    else if hs[0].0 == key then
      if found then ReplaceHeader(hs[1..], key, value, true)
      else [(key, value)] + ReplaceHeader(hs[1..], key, value, true)
    else [hs[0]] + ReplaceHeader(hs[1..], key, value, found)
  }

  /** `response.headers[name] = value` on a response's mutable header list. */
  function SetHeader(hs: seq<(string, string)>, name: string, value: string): (r: seq<(string, string)>)
    ensures ValuesOf(r, Lower(name)) == [value]
    ensures forall n :: n != Lower(name) ==> ValuesOf(r, n) == ValuesOf(hs, n)
  {
    ReplaceHeader(hs, Lower(name), value, false)
  }

  lemma CacheHeaderIsLowercase()
    ensures Lower(CacheHeader) == CacheHeader
  {
    LowerOfLowercase(CacheHeader);
  }

  // --- The stored header dict (`_cache_headers`). ---

  /** `d.get(k)` on a dict kept as its items in insertion order. */
  function DictGet(d: seq<(string, string)>, k: string): Option<string>
    decreases |d|
  {
    if d == [] then None else if d[0].0 == k then Some(d[0].1) else DictGet(d[1..], k)
  }

  /** `d[k] = v`: an existing key keeps its position. */
  function DictPut(d: seq<(string, string)>, k: string, v: string): (r: seq<(string, string)>)
    ensures DictGet(r, k) == Some(v)
    ensures forall j :: j != k ==> DictGet(r, j) == DictGet(d, j)
    decreases |d|
  {
    if d == [] then [(k, v)]
    else if d[0].0 == k then [(k, v)] + d[1..]
    else [d[0]] + DictPut(d[1..], k, v)
  }

  /** No key occurs twice. */
  predicate DistinctKeys(d: seq<(string, string)>)
    decreases |d|
  {
    d == [] || (DictGet(d[1..], d[0].0).None? && DistinctKeys(d[1..]))
  }

  lemma {:induction false} DictPutDistinct(d: seq<(string, string)>, k: string, v: string)
    requires DistinctKeys(d)
    ensures DistinctKeys(DictPut(d, k, v))
    decreases |d|
  {
    if d != [] && d[0].0 != k {
      DictPutDistinct(d[1..], k, v);
      assert DictPut(d, k, v)[1..] == DictPut(d[1..], k, v);
    } else if d != [] {
      assert DictPut(d, k, v)[1..] == d[1..];
    }
  }

  /** The dict `_cache_headers` builds: later pairs overwrite, transport headers are skipped. */
  function CachedHeaders(hs: seq<(string, string)>): seq<(string, string)>
    decreases |hs|
  {
    if hs == [] then []
    else
      var d := CachedHeaders(hs[..|hs| - 1]);
      var (k, v) := hs[|hs| - 1];
      if Lower(k) in SkipHeaders then d else DictPut(d, k, v)
  }

  /** The value of the last pair named `k`. */
  function LastValue(hs: seq<(string, string)>, k: string): Option<string>
    decreases |hs|
  {
    if hs == [] then None
    else if hs[|hs| - 1].0 == k then Some(hs[|hs| - 1].1)
    else LastValue(hs[..|hs| - 1], k)
  }

  /**
   * A header survives into the stored entry with its last value, unless its
   * name is `content-length`, `date` or `server` in any case.
   */
  lemma {:induction false} CachedHeadersLookup(hs: seq<(string, string)>, k: string)
    ensures DictGet(CachedHeaders(hs), k) == if Lower(k) in SkipHeaders then None else LastValue(hs, k)
    decreases |hs|
  {
    if hs != [] {
      CachedHeadersLookup(hs[..|hs| - 1], k);
    }
  }

  lemma {:induction false} CachedHeadersDistinct(hs: seq<(string, string)>)
    ensures DistinctKeys(CachedHeaders(hs))
    decreases |hs|
  {
    if hs != [] {
      CachedHeadersDistinct(hs[..|hs| - 1]);
      var (k, v) := hs[|hs| - 1];
      DictPutDistinct(CachedHeaders(hs[..|hs| - 1]), k, v);
    }
  }

  // --- Rebuilding a response from an entry. ---

  /** The stored headers assigned one by one onto `base`. */
  function Replay(base: seq<(string, string)>, d: seq<(string, string)>): seq<(string, string)>
    decreases |d|
  {
    if d == [] then base else SetHeader(Replay(base, d[..|d| - 1]), d[|d| - 1].0, d[|d| - 1].1)
  }

  /** The value of the last pair whose name lower-cases to `n`. */
  function LastValueNamed(d: seq<(string, string)>, n: string): Option<string>
    decreases |d|
  {
    if d == [] then None
    else if Lower(d[|d| - 1].0) == n then Some(d[|d| - 1].1)
    else LastValueNamed(d[..|d| - 1], n)
  }

  lemma {:induction false} ReplayValues(base: seq<(string, string)>, d: seq<(string, string)>, n: string)
    ensures ValuesOf(Replay(base, d), n) == match LastValueNamed(d, n)
                                            case Some(v) => [v]
                                            case None => ValuesOf(base, n)
    decreases |d|
  {
    if d != [] {
      ReplayValues(base, d[..|d| - 1], n);
    }
  }

  /** The response a hit serves: status, media type and body from the entry. */
  function HitResponse(e: CachedEntry): Response {
    Response(e.status, e.mediaType, SetHeader(Replay([], e.headers), CacheHeader, "hit"), e.body)
  }

  /** The handler's response, marked as a miss. */
  function MissResponse(r: Response): Response {
    r.(headers := SetHeader(r.headers, CacheHeader, "miss"))
  }

  /** The entry the read path stores for a response. */
  function ToEntry(r: Response): CachedEntry {
    CachedEntry(r.status, r.mediaType, CachedHeaders(r.headers), r.body)
  }

  /** A hit carries `x-cache: hit` and, for every other name, the last stored value. */
  lemma HitResponseHeaders(e: CachedEntry, n: string)
    ensures ValuesOf(HitResponse(e).headers, CacheHeader) == ["hit"]
    ensures n != CacheHeader ==> ValuesOf(HitResponse(e).headers, n) == match LastValueNamed(e.headers, n)
                                                                      case Some(v) => [v]
                                                                      case None => []
  {
    CacheHeaderIsLowercase();
    ReplayValues([], e.headers, n);
  }

  /** A miss carries `x-cache: miss` and otherwise the handler's headers. */
  lemma MissResponseHeaders(r: Response, n: string)
    ensures ValuesOf(MissResponse(r).headers, CacheHeader) == ["miss"]
    ensures n != CacheHeader ==> ValuesOf(MissResponse(r).headers, n) == ValuesOf(r.headers, n)
    ensures MissResponse(r).status == r.status && MissResponse(r).body == r.body
  {
    CacheHeaderIsLowercase();
  }

  // ---------------------------------------------------------------------------
  // The read path as a function of the keyspace.
  // ---------------------------------------------------------------------------

  /** Which store calls of the read path succeed: `GET`, `DEL`, `SETEX`, the tag pipeline. */
  datatype Conditions = Conditions(getOk: bool, deleteOk: bool, setOk: bool, registerOk: bool)

  /**
   * A served response, or the exception of the one store call the read path
   * does not catch (the `DEL` of an undecodable entry), which leaves the
   * keyspace as it was.
   */
  datatype ReadResult =
    | Served(ks: Keyspace, response: Response, handlerCalled: bool)
    | Raised(ks: Keyspace)

  /** The tags a read registers under: the cache tags, or the literal path tag if there are none. */
  function ReadTags(path: string): (r: set<string>)
    ensures r == DeriveTags(path).cacheTags
  {
    var tags := DeriveTags(path).cacheTags;
    if tags == {} then {"path:" + path} else tags
  }

  /** What `GET` on the response key yields; a failed read counts as nothing found. */
  function Lookup(ks: Keyspace, key: Fingerprint, getOk: bool): Option<StoredValue> {
    if getOk && key in ks.responses then Some(ks.responses[key].value) else None
  }

  /** A cached value that decodes to an entry. */
  predicate IsHit(ks: Keyspace, req: Request, c: Conditions) {
    var v := Lookup(ks, CacheKey(req), c.getOk);
    v.Some? && v.value.Entry?
  }

  /** The cached value does not decode and deleting it fails. */
  predicate DeleteFails(ks: Keyspace, req: Request, c: Conditions) {
    Lookup(ks, CacheKey(req), c.getOk) == Some(Undecodable) && !c.deleteOk
  }

  /** `_handle_read`, from the keyspace before to the keyspace after and the response. */
  function ReadStep(ks: Keyspace, req: Request, handler: Response, ttl: int, c: Conditions): ReadResult {
    var key := CacheKey(req);
    var cached := Lookup(ks, key, c.getOk);
    if cached.Some? && cached.value.Entry? then Served(ks, HitResponse(cached.value.entry), false)
    else if cached == Some(Undecodable) && !c.deleteOk then Raised(ks)
    else
      var cleared := if cached == Some(Undecodable) then Keyspace(ks.responses - {key}, ks.tagSets) else ks;
      var stored := handler.status < 500 && c.setOk && ttl > 0;
      var written := if stored then Keyspace(cleared.responses[key := Stored(Entry(ToEntry(handler)), ttl)], cleared.tagSets) else cleared;
      var tags := NonEmptyTags(ReadTags(req.path));
      var registered := stored && c.registerOk && tags != {};
      var tagged := if registered then Keyspace(written.responses, WithMembership(written.tagSets, key, tags, ttl)) else written;
      Served(tagged, MissResponse(handler), true)
  }

  /** A hit serves the stored status and body, does not call the handler and changes nothing. */
  lemma ReadHit(ks: Keyspace, req: Request, handler: Response, ttl: int, c: Conditions)
    requires IsHit(ks, req, c)
    ensures var r := ReadStep(ks, req, handler, ttl, c);
            var e := ks.responses[CacheKey(req)].value.entry;
            && r.Served? && !r.handlerCalled && r.ks == ks
            && r.response.status == e.status && r.response.body == e.body
            && ValuesOf(r.response.headers, CacheHeader) == ["hit"]
  {
    HitResponseHeaders(ks.responses[CacheKey(req)].value.entry, CacheHeader);
  }

  /**
   * A miss raises, without calling the handler or changing anything, exactly
   * when an undecodable entry cannot be deleted; otherwise it returns the
   * handler's response marked `miss`.
   */
  lemma ReadMiss(ks: Keyspace, req: Request, handler: Response, ttl: int, c: Conditions)
    requires !IsHit(ks, req, c)
    ensures var r := ReadStep(ks, req, handler, ttl, c);
            && (r.Raised? <==> DeleteFails(ks, req, c))
            && (r.Raised? ==> r.ks == ks)
            && (r.Served? ==> && r.handlerCalled
                              && r.response.status == handler.status && r.response.body == handler.body
                              && ValuesOf(r.response.headers, CacheHeader) == ["miss"])
  {
    MissResponseHeaders(handler, CacheHeader);
  }

  /**
   * A miss below 500 whose `SETEX` succeeds stores the response without its
   * transport headers; when the pipeline succeeds too, the key is listed under
   * every cache tag of the path.
   */
  lemma ReadMissStores(ks: Keyspace, req: Request, handler: Response, ttl: int, c: Conditions, k: string)
    requires !IsHit(ks, req, c) && !DeleteFails(ks, req, c)
    requires handler.status < 500 && c.setOk && ttl > 0
    ensures var r := ReadStep(ks, req, handler, ttl, c);
            && CacheKey(req) in r.ks.responses
            && r.ks.responses[CacheKey(req)] == Stored(Entry(ToEntry(handler)), ttl)
            && DictGet(ToEntry(handler).headers, k) == (if Lower(k) in SkipHeaders then None else LastValue(handler.headers, k))
            && (c.registerOk ==> forall t :: t in DeriveTags(req.path).cacheTags ==> CacheKey(req) in Members(r.ks, t))
  {
    CachedHeadersLookup(handler.headers, k);
  }

  /** A response of 500 or more is never written: the read path adds no key. */
  lemma ServerErrorsAreNotCached(ks: Keyspace, req: Request, handler: Response, ttl: int, c: Conditions)
    requires handler.status >= 500
    ensures ReadStep(ks, req, handler, ttl, c).ks.responses.Keys <= ks.responses.Keys
    ensures ReadStep(ks, req, handler, ttl, c).ks.tagSets == ks.tagSets
  {
  }

  /**
   * Round trip: after a miss is stored, the same request (or any with the same
   * method, path, query and accept header) is a hit that returns the original
   * status and body without calling the handler.
   */
  lemma ReadAfterStoreHits(ks: Keyspace, req: Request, handler: Response, ttl: int, c: Conditions,
                           again: Request, other: Response, c2: Conditions)
    requires !IsHit(ks, req, c) && !DeleteFails(ks, req, c)
    requires handler.status < 500 && c.setOk && ttl > 0
    requires CacheKey(again) == CacheKey(req) && c2.getOk
    ensures var first := ReadStep(ks, req, handler, ttl, c);
            var second := ReadStep(first.ks, again, other, ttl, c2);
            && second.Served? && !second.handlerCalled
            && second.response.status == handler.status
            && second.response.body == handler.body
            && ValuesOf(second.response.headers, CacheHeader) == ["hit"]
  {
    var first := ReadStep(ks, req, handler, ttl, c);
    ReadMissStores(ks, req, handler, ttl, c, CacheHeader);
    assert IsHit(first.ks, again, c2);
    ReadHit(first.ks, again, other, ttl, c2);
  }

  /**
   * No stale hit after a mutation of the same path: once a read has stored and
   * registered an entry, a mutation of that path whose invalidation meets no
   * fault removes it, so the next identical read calls the handler.
   */
  lemma NoStaleHitAfterMutation(ks: Keyspace, req: Request, handler: Response, ttl: int, c: Conditions,
                                order: seq<string>, faults: FaultPlan, next: Response, c2: Conditions)
    requires !IsHit(ks, req, c) && !DeleteFails(ks, req, c)
    requires handler.status < 500 && c.setOk && c.registerOk && ttl > 0
    requires forall t :: t in AllTags(req.path) ==> t in order
    requires Reliable(faults, order)
    ensures var stored := ReadStep(ks, req, handler, ttl, c).ks;
            var after := RunTags(stored, order, InvalidationRetries, faults).ks;
            var r := ReadStep(after, req, next, ttl, c2);
            && CacheKey(req) !in after.responses
            && r.Served? && r.handlerCalled
  {
    var stored := ReadStep(ks, req, handler, ttl, c).ks;
    ReadMissStores(ks, req, handler, ttl, c, CacheHeader);
    var t := DeriveTagsHasCacheTag(req.path);
    assert t in AllTags(req.path);
    MembersInAll(stored, order, t);
    RunTagsReliable(stored, order, InvalidationRetries, faults);
    var after := RunTags(stored, order, InvalidationRetries, faults).ks;
    ReadMiss(after, req, next, ttl, c2);
  }

  /**
   * The parent is invalidated too: a mutation of a resource removes a stored
   * read of the resource it is related to (the list of a series, the issue of
   * a copies list, ...), when its invalidation meets no fault.
   */
  lemma MutationInvalidatesRelatedRead(r: Resource, parent: Resource, ks: Keyspace, req: Request, handler: Response,
                                       ttl: int, c: Conditions, order: seq<string>, faults: FaultPlan)
    requires WellFormed(r) && Related(r) == Some(parent)
    requires req.path == PathOf(parent)
    requires !IsHit(ks, req, c) && !DeleteFails(ks, req, c)
    requires handler.status < 500 && c.setOk && c.registerOk && ttl > 0
    requires forall t :: t in AllTags(PathOf(r)) ==> t in order
    requires Reliable(faults, order)
    ensures var stored := ReadStep(ks, req, handler, ttl, c).ks;
            CacheKey(req) !in RunTags(stored, order, InvalidationRetries, faults).ks.responses
  {
    var stored := ReadStep(ks, req, handler, ttl, c).ks;
    ReadMissStores(ks, req, handler, ttl, c, CacheHeader);
    RelatedTagIsAncestorTag(r);
    DeriveTagsOfResource(parent);
    var t := ResourceTag(parent);
    assert t in DeriveTags(PathOf(r)).relatedTags;
    assert t in AllTags(PathOf(r));
    MembersInAll(stored, order, t);
    RunTagsReliable(stored, order, InvalidationRetries, faults);
  }

  /**
   * A read stored and registered only under its own cache tags survives any
   * invalidation run over other tags that did not list its key before, whatever
   * the faults, and is served again with the stored status and body.
   */
  lemma StoredReadSurvivesOtherTags(ks: Keyspace, req: Request, handler: Response, ttl: int, c: Conditions,
                                    order: seq<string>, faults: FaultPlan, next: Response)
    requires !IsHit(ks, req, c) && !DeleteFails(ks, req, c)
    requires handler.status < 500 && c.getOk && c.setOk && ttl > 0
    requires forall t :: t in order ==> t !in DeriveTags(req.path).cacheTags
    requires forall t :: t in order ==> CacheKey(req) !in Members(ks, t)
    ensures var stored := ReadStep(ks, req, handler, ttl, c).ks;
            var after := RunTags(stored, order, InvalidationRetries, faults).ks;
            var r := ReadStep(after, req, next, ttl, c);
            && IsHit(after, req, c)
            && r.Served? && !r.handlerCalled
            && r.response.status == handler.status && r.response.body == handler.body
  {
    var key := CacheKey(req);
    var stored := ReadStep(ks, req, handler, ttl, c).ks;
    ReadMissStores(ks, req, handler, ttl, c, CacheHeader);
    forall t | t in order
      ensures key !in Members(stored, t)
    {
      UnregisteredTagKeepsMembers(ks, req, handler, ttl, c, t);
    }
    KeyOutsideAllMembers(stored, order, key);
    RunTagsOnlyDeletes(stored, order, InvalidationRetries, faults);
    var after := RunTags(stored, order, InvalidationRetries, faults).ks;
    assert after.responses[key] == stored.responses[key];
    ReadHit(after, req, next, ttl, c);
  }

  /** A read leaves the set of every tag outside the path's cache tags as it was. */
  lemma UnregisteredTagKeepsMembers(ks: Keyspace, req: Request, handler: Response, ttl: int, c: Conditions, t: string)
    requires t !in DeriveTags(req.path).cacheTags
    ensures Members(ReadStep(ks, req, handler, ttl, c).ks, t) == Members(ks, t)
  {
    var tags := NonEmptyTags(ReadTags(req.path));
    ReadStepTagSets(ks, req, handler, ttl, c);
    MembershipOutsideTags(ks.tagSets, CacheKey(req), tags, ttl, t);
  }

  /** A read either leaves the tag sets alone or adds its key under the path's tags. */
  lemma ReadStepTagSets(ks: Keyspace, req: Request, handler: Response, ttl: int, c: Conditions)
    ensures var ts := ReadStep(ks, req, handler, ttl, c).ks.tagSets;
            ts == ks.tagSets || ts == WithMembership(ks.tagSets, CacheKey(req), NonEmptyTags(ReadTags(req.path)), ttl)
  {
  }

  lemma MembershipOutsideTags(ts: map<string, TagSet>, key: Fingerprint, tags: set<string>, ttl: int, t: string)
    requires t !in tags
    ensures MembersAt(WithMembership(ts, key, tags, ttl), TagKey(t)) == MembersAt(ts, TagKey(t))
  {
    forall u | u in tags
      ensures TagKey(u) != TagKey(t)
    {
      if TagKey(u) == TagKey(t) {
        TagKeyInjective(u, t);
      }
    }
  }

  /**
   * The versioned list stays stale: routes live under `/v1`, and a mutation of
   * `/v1/series/{id}` invalidates only its own path tag, so a read of
   * `/v1/series` stored after it was last listed survives the mutation,
   * whatever the faults, and is served again.
   */
  lemma VersionedMutationLeavesListStale(ks: Keyspace, listPath: string, id: string, req: Request, handler: Response,
                                         ttl: int, c: Conditions, order: seq<string>, faults: FaultPlan,
                                         next: Response)
    requires listPath == "/v1/series" && IsSegment(id)
    requires req.path == listPath
    requires !IsHit(ks, req, c) && !DeleteFails(ks, req, c)
    requires handler.status < 500 && c.getOk && c.setOk && ttl > 0
    requires forall t :: t in order ==> t in AllTags("/v1/series/" + id)
    requires forall t :: t in order ==> CacheKey(req) !in Members(ks, t)
    ensures var stored := ReadStep(ks, req, handler, ttl, c).ks;
            var after := RunTags(stored, order, InvalidationRetries, faults).ks;
            var r := ReadStep(after, req, next, ttl, c);
            && IsHit(after, req, c)
            && r.Served? && !r.handlerCalled
            && r.response.status == handler.status && r.response.body == handler.body
  {
    var segs := ["v1", "series"];
    assert Join(segs, "/") == "v1/series";
    VersionedPathFallsBack(segs, listPath);
    VersionedSeriesPathFallsBack(id);
    forall t | t in order
      ensures t !in DeriveTags(req.path).cacheTags
    {
      assert t == "path:/v1/series/" + id;
      assert |t| != |"path:" + listPath|;
    }
    StoredReadSurvivesOtherTags(ks, req, handler, ttl, c, order, faults, next);
  }

  /** A key listed under none of the given tags is not among their members. */
  lemma {:induction false} KeyOutsideAllMembers(ks: Keyspace, order: seq<string>, key: Fingerprint)
    requires forall t :: t in order ==> key !in Members(ks, t)
    ensures key !in AllMembers(ks, order)
    decreases |order|
  {
    if order != [] {
      assert forall t :: t in order[..|order| - 1] ==> t in order;
      KeyOutsideAllMembers(ks, order[..|order| - 1], key);
    }
  }

  // ---------------------------------------------------------------------------
  // The middleware.
  // ---------------------------------------------------------------------------

  class Middleware {
    const store: Store
    const cacheTtl: int

    /** `cache_ttl_seconds or _cache_ttl()`, with the environment value as a parameter. */
    constructor (store: Store, configured: Option<int>, env: Option<string>)
      ensures this.store == store && cacheTtl == EffectiveTtl(configured, env)
    {
      this.store := store;
      cacheTtl := EffectiveTtl(configured, env);
    }

    /** `_cache_headers`. */
    method CacheHeaders(headers: seq<(string, string)>) returns (filtered: seq<(string, string)>)
      ensures filtered == CachedHeaders(headers)
    {
      filtered := [];
      for i := 0 to |headers|
        invariant filtered == CachedHeaders(headers[..i])
      {
        assert headers[..i + 1][..i] == headers[..i];
        var (key, value) := headers[i];
        if Lower(key) in SkipHeaders {
          continue;
        }
        filtered := DictPut(filtered, key, value);
      }
      assert headers[..|headers|] == headers;
    }

    /** `_handle_read`: serve a decodable entry, or call the handler and store what it returns. */
    method HandleRead(req: Request, handler: Response, c: Conditions) returns (resp: Response, handlerCalled: bool, raised: bool)
      modifies store
      ensures var r := ReadStep(old(store.State()), req, handler, cacheTtl, c);
              && store.State() == r.ks && raised == r.Raised? && (raised ==> !handlerCalled)
              && (r.Served? ==> resp == r.response && handlerCalled == r.handlerCalled)
    {
      raised := false;
      var tags := DeriveTags(req.path).cacheTags;
      if tags == {} {
        tags := {"path:" + req.path};
      }
      var key := CacheKey(req);
      var cached: Option<StoredValue> := None;
      if c.getOk && key in store.responses {
        cached := Some(store.responses[key].value);
      }
      if cached.Some? {
        match cached.value {
          case Entry(e) =>
            var headers := [];
            for i := 0 to |e.headers|
              invariant headers == Replay([], e.headers[..i])
            {
              assert e.headers[..i + 1][..i] == e.headers[..i];
              headers := SetHeader(headers, e.headers[i].0, e.headers[i].1);
            }
            assert e.headers[..|e.headers|] == e.headers;
            headers := SetHeader(headers, CacheHeader, "hit");
            return Response(e.status, e.mediaType, headers, e.body), false, false;
          case Undecodable =>
            if !c.deleteOk {
              return handler, false, true;
            }
            store.Delete(key);
          case Blank =>
        }
      }
      resp := handler;
      handlerCalled := true;
      if handler.status < 500 {
        var filtered := CacheHeaders(handler.headers);
        var entry := CachedEntry(handler.status, handler.mediaType, filtered, handler.body);
        if c.setOk {
          var ok := store.SetEx(key, cacheTtl, Entry(entry));
          if ok {
            var _ := store.RegisterTags(key, tags, cacheTtl, c.registerOk);
          }
        }
      }
      resp := resp.(headers := SetHeader(resp.headers, CacheHeader, "miss"));
    }

    /**
     * `_handle_mutation`: the handler's response is returned unchanged; below
     * 500, the path's cache and related tags are invalidated with retries.
     */
    method HandleMutation(req: Request, handler: Response, faults: FaultPlan) returns (resp: Response, order: seq<string>, cancelled: bool)
      modifies store
      ensures resp == handler
      ensures handler.status >= 500 ==> order == [] && !cancelled && store.State() == old(store.State())
      ensures RunTags(old(store.State()), order, InvalidationRetries, faults) == RunResult(store.State(), cancelled)
      ensures forall i, j :: 0 <= i < j < |order| ==> order[i] != order[j]
      ensures forall t :: t in order ==> t in AllTags(req.path)
      ensures handler.status < 500 && !cancelled ==> forall t :: t in AllTags(req.path) ==> t in order
    {
      resp := handler;
      order := [];
      cancelled := false;
      if handler.status < 500 {
        var info := DeriveTags(req.path);
        var tags := info.cacheTags + info.relatedTags;
        if tags != {} {
          order, cancelled := store.InvalidateTagSet(tags, InvalidationRetries, faults);
        }
      }
    }

    /**
     * `dispatch`: without a store client only the handler runs; a method that
     * upper-cases to `GET` takes the read path, every other one (`HEAD`
     * included) the mutation path.
     */
    method Dispatch(req: Request, handler: Response, available: bool, c: Conditions, faults: FaultPlan)
      returns (resp: Response, handlerCalled: bool, order: seq<string>, cancelled: bool, raised: bool)
      modifies store
      ensures !available ==> resp == handler && handlerCalled && !raised && order == [] && store.State() == old(store.State())
      ensures available && Upper(req.verb) in SafeMethods ==>
                var r := ReadStep(old(store.State()), req, handler, cacheTtl, c);
                && store.State() == r.ks && raised == r.Raised? && order == []
                && (r.Served? ==> resp == r.response && handlerCalled == r.handlerCalled)
      ensures available && Upper(req.verb) !in SafeMethods ==>
                && resp == handler && handlerCalled && !raised
                && RunTags(old(store.State()), order, InvalidationRetries, faults) == RunResult(store.State(), cancelled)
                && (forall t :: t in order ==> t in AllTags(req.path))
    {
      order := [];
      cancelled := false;
      raised := false;
      if !available {
        return handler, true, order, cancelled, raised;
      }
      if Upper(req.verb) in SafeMethods {
        resp, handlerCalled, raised := HandleRead(req, handler, c);
      } else {
        resp, order, cancelled := HandleMutation(req, handler, faults);
        handlerCalled := true;
      }
    }
  }
}
