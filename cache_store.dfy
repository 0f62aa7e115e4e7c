/**
 * The Redis keyspace the response cache uses, and the tag protocol over it:
 * registering a response key under its tags, invalidating one tag, the retrying
 * loop over a set of tags, and the two module-level entry points
 * `invalidate_tags` and `invalidate_paths` (app/cache.py:110-134, 344-391).
 *
 * Response keys are `cache:responses:` followed by a SHA-256 digest of the
 * request descriptor; the digest is modelled by the descriptor itself
 * (`Fingerprint`), an injective stand-in. Tag sets live under
 * `cache:tag:` + tag. The two prefixes never overlap, so the keyspace is kept
 * as two maps. Store failures are inputs: a `FaultPlan` says, for a tag and an
 * attempt number, whether one `_invalidate_tag` call completes or where it fails.
 */
module CacheStore {
  import opened Wrappers
  import opened Tags

  const TagKeyPrefix: string := "cache:tag:"

  /** The descriptor `_cache_key` hashes: method, path, query and `accept` header. */
  datatype Fingerprint = Fingerprint(verb: string, path: string, query: string, accept: Option<string>)

  /** The JSON payload the read path stores: status, media type, header dict, body. */
  datatype CachedEntry = CachedEntry(status: int, mediaType: Option<string>, headers: seq<(string, string)>, body: seq<byte>)

  /** A value under a response key: a payload that decodes, one that does not, or an empty (falsy) value. */
  datatype StoredValue = Entry(entry: CachedEntry) | Undecodable | Blank

  datatype Stored = Stored(value: StoredValue, ttl: int)

  /** A Redis set of response keys with the expiry last given to it. */
  datatype TagSet = TagSet(members: set<Fingerprint>, ttl: int)

  datatype Keyspace = Keyspace(responses: map<Fingerprint, Stored>, tagSets: map<string, TagSet>)

  /** `Exception` raised by the client, or `asyncio.CancelledError`. */
  datatype Fault = Transient | Cancellation

  /** One `_invalidate_tag` call: it completes, or fails before or after deleting the members. */
  datatype Attempt = Completes | Fails(fault: Fault, membersDeleted: bool)

  type FaultPlan = (string, nat) -> Attempt

  datatype Outcome = Finished | GaveUp | Cancelled

  datatype TagResult = TagResult(ks: Keyspace, outcome: Outcome, attempts: nat)

  datatype RunResult = RunResult(ks: Keyspace, cancelled: bool)

  function TagKey(tag: string): string {
    TagKeyPrefix + tag
  }

  lemma TagKeyInjective(a: string, b: string)
    requires TagKey(a) == TagKey(b)
    ensures a == b
  {
    assert a == TagKey(a)[|TagKeyPrefix|..];
    assert b == TagKey(b)[|TagKeyPrefix|..];
  }

  /** `[tag for tag in tags if tag]`, as a set. */
  function NonEmptyTags(tags: set<string>): (r: set<string>)
    ensures r <= tags && "" !in r
    ensures forall t :: t in tags && t != "" ==> t in r
  {
    set t | t in tags && t != ""
  }

  /** `SMEMBERS cache:tag:{tag}`: a missing key reads as the empty set. */
  function Members(ks: Keyspace, tag: string): set<Fingerprint> {
    if TagKey(tag) in ks.tagSets then ks.tagSets[TagKey(tag)].members else {}
  }

  // ---------------------------------------------------------------------------
  // Registration (`_register_tags`).
  // ---------------------------------------------------------------------------

  function MembersAt(ts: map<string, TagSet>, k: string): set<Fingerprint> {
    if k in ts then ts[k].members else {}
  }

  /** The keys of the given tags' sets. */
  function TagKeys(tags: set<string>): set<string> {
    set t | t in tags :: TagKey(t)
  }

  lemma TagKeysAdd(done: set<string>, t: string)
    ensures TagKeys(done + {t}) == TagKeys(done) + {TagKey(t)}
  {
  }

  /** The tag sets after `SADD key` and `EXPIRE ttl` on each of the given set keys. */
  function WithKeys(ts: map<string, TagSet>, key: Fingerprint, keys: set<string>, ttl: int): map<string, TagSet> {
    map k | k in ts.Keys + keys :: if k in keys then TagSet(MembersAt(ts, k) + {key}, ttl) else ts[k]
  }

  /** One set key more is one more map update, on top of the earlier ones. */
  lemma WithKeysStep(ts: map<string, TagSet>, key: Fingerprint, keys: set<string>, k0: string, ttl: int)
    ensures WithKeys(ts, key, keys + {k0}, ttl)
         == WithKeys(ts, key, keys, ttl)[k0 := TagSet(MembersAt(WithKeys(ts, key, keys, ttl), k0) + {key}, ttl)]
  {
    var w := WithKeys(ts, key, keys, ttl);
    assert MembersAt(w, k0) + {key} == MembersAt(ts, k0) + {key};
  }

  /** The tag sets after `SADD key` and `EXPIRE ttl` on the set of every given tag. */
  function WithMembership(ts: map<string, TagSet>, key: Fingerprint, tags: set<string>, ttl: int): (r: map<string, TagSet>)
    ensures forall t :: t in tags ==> TagKey(t) in r && r[TagKey(t)] == TagSet(MembersAt(ts, TagKey(t)) + {key}, ttl)
    ensures forall k :: k in ts && (forall t :: t in tags ==> TagKey(t) != k) ==> k in r && r[k] == ts[k]
    ensures forall k :: k in r ==> k in ts || exists t :: t in tags && TagKey(t) == k
  {
    WithKeys(ts, key, TagKeys(tags), ttl)
  }

  lemma WithMembershipStep(ts: map<string, TagSet>, key: Fingerprint, done: set<string>, t: string, ttl: int)
    ensures WithMembership(ts, key, done + {t}, ttl)
         == WithMembership(ts, key, done, ttl)[TagKey(t) := TagSet(MembersAt(WithMembership(ts, key, done, ttl), TagKey(t)) + {key}, ttl)]
  {
    TagKeysAdd(done, t);
    WithKeysStep(ts, key, TagKeys(done), TagKey(t), ttl);
  }

  // ---------------------------------------------------------------------------
  // Invalidation (`_invalidate_tag`, `_invalidate_tag_set`).
  // ---------------------------------------------------------------------------

  /** The effect of one `_invalidate_tag` call: `DEL` the members, then `DEL` the tag key. */
  function AttemptEffect(ks: Keyspace, tag: string, a: Attempt): Keyspace {
    match a
    case Completes => Keyspace(ks.responses - Members(ks, tag), ks.tagSets - {TagKey(tag)})
    case Fails(_, deleted) => if deleted then Keyspace(ks.responses - Members(ks, tag), ks.tagSets) else ks
  }

  /** The number of further attempts the retry loop allows from `attempt` on. */
  function RetriesLeft(attempt: nat, retries: int): nat {
    if attempt < retries then retries - attempt else 0
  }

  /** The retry loop for one tag, starting at attempt number `attempt`. */
  function TagRun(ks: Keyspace, tag: string, attempt: nat, retries: int, faults: FaultPlan): (r: TagResult)
    ensures 1 <= r.attempts <= RetriesLeft(attempt, retries) + 1
    ensures r.outcome == GaveUp ==> r.attempts == RetriesLeft(attempt, retries) + 1
    ensures r.ks.responses == ks.responses || r.ks.responses == ks.responses - Members(ks, tag)
    ensures r.outcome == Finished ==> r.ks.responses == ks.responses - Members(ks, tag)
    ensures r.ks.tagSets == if r.outcome == Finished then ks.tagSets - {TagKey(tag)} else ks.tagSets
    decreases RetriesLeft(attempt, retries)
  {
    var a := faults(tag, attempt);
    var next := AttemptEffect(ks, tag, a);
    match a
    case Completes => TagResult(next, Finished, 1)
    case Fails(Cancellation, _) => TagResult(next, Cancelled, 1)
    case Fails(Transient, _) =>
      if attempt >= retries then TagResult(next, GaveUp, 1)
      else
        assert Members(next, tag) == Members(ks, tag);
        assert next.responses - Members(ks, tag) == ks.responses - Members(ks, tag);
        var r := TagRun(next, tag, attempt + 1, retries, faults);
        TagResult(r.ks, r.outcome, r.attempts + 1)
  }

  /** `_invalidate_tag_set` over tags in the order iterated: a cancellation ends the run. */
  function RunTags(ks: Keyspace, order: seq<string>, retries: int, faults: FaultPlan): RunResult
    decreases |order|
  {
    if order == [] then RunResult(ks, false)
    else
      var p := RunTags(ks, order[..|order| - 1], retries, faults);
      if p.cancelled then p
      else
        var r := TagRun(p.ks, order[|order| - 1], 0, retries, faults);
        RunResult(r.ks, r.outcome == Cancelled)
  }

  /** One tag more after a run that was not cancelled: that tag's retry loop on the state reached. */
  lemma RunTagsAppend(ks: Keyspace, order: seq<string>, tag: string, retries: int, faults: FaultPlan)
    requires !RunTags(ks, order, retries, faults).cancelled
    ensures var r := TagRun(RunTags(ks, order, retries, faults).ks, tag, 0, retries, faults);
            RunTags(ks, order + [tag], retries, faults) == RunResult(r.ks, r.outcome == Cancelled)
  {
    assert (order + [tag])[..|order|] == order;
  }

  /** Every response key and tag set left in `after` was in `before`, with the same value. */
  predicate Shrinks(before: Keyspace, after: Keyspace) {
    && (forall k :: k in after.responses ==> k in before.responses && after.responses[k] == before.responses[k])
    && (forall k :: k in after.tagSets ==> k in before.tagSets && after.tagSets[k] == before.tagSets[k])
  }

  /** The members of the given tags' sets. */
  function AllMembers(ks: Keyspace, order: seq<string>): set<Fingerprint>
    decreases |order|
  {
    if order == [] then {} else AllMembers(ks, order[..|order| - 1]) + Members(ks, order[|order| - 1])
  }

  lemma ShrinksMembers(before: Keyspace, after: Keyspace, tag: string)
    requires Shrinks(before, after)
    ensures Members(after, tag) <= Members(before, tag)
  {
  }

  lemma ShrinksTransitive(a: Keyspace, b: Keyspace, c: Keyspace)
    requires Shrinks(a, b) && Shrinks(b, c)
    ensures Shrinks(a, c)
  {
  }

  /**
   * Whatever the faults, invalidation only deletes: every key left keeps its value,
   * a response key outside the given tags' sets survives, and so does every
   * tag set of another tag.
   */
  lemma {:induction false} RunTagsOnlyDeletes(ks: Keyspace, order: seq<string>, retries: int, faults: FaultPlan)
    ensures Shrinks(ks, RunTags(ks, order, retries, faults).ks)
    ensures forall k :: k in ks.responses && k !in AllMembers(ks, order) ==> k in RunTags(ks, order, retries, faults).ks.responses
    ensures forall k :: k in ks.tagSets && (forall t :: t in order ==> TagKey(t) != k) ==> k in RunTags(ks, order, retries, faults).ks.tagSets
    decreases |order|
  {
    if order != [] {
      var front := order[..|order| - 1];
      var last := order[|order| - 1];
      RunTagsOnlyDeletes(ks, front, retries, faults);
      var p := RunTags(ks, front, retries, faults);
      if !p.cancelled {
        var r := TagRun(p.ks, last, 0, retries, faults);
        assert Shrinks(p.ks, r.ks);
        ShrinksMembers(ks, p.ks, last);
        forall t | t in front
          ensures t in order
        {
          assert front[..] == order[..|order| - 1];
        }
      }
    }
  }

  /** Attempt 0 of every tag in `order` completes. */
  predicate Reliable(faults: FaultPlan, order: seq<string>) {
    forall t :: t in order ==> faults(t, 0) == Completes
  }

  /**
   * Without faults, invalidation is effective: the run is not cancelled, and
   * neither the tag sets nor any key they listed remain.
   */
  lemma {:induction false} RunTagsReliable(ks: Keyspace, order: seq<string>, retries: int, faults: FaultPlan)
    requires Reliable(faults, order)
    ensures !RunTags(ks, order, retries, faults).cancelled
    ensures forall t :: t in order ==> TagKey(t) !in RunTags(ks, order, retries, faults).ks.tagSets
    ensures forall k :: k in AllMembers(ks, order) ==> k !in RunTags(ks, order, retries, faults).ks.responses
    decreases |order|
  {
    if order != [] {
      var front := order[..|order| - 1];
      var last := order[|order| - 1];
      assert forall t :: t in front ==> t in order;
      RunTagsReliable(ks, front, retries, faults);
      RunTagsOnlyDeletes(ks, front, retries, faults);
      var p := RunTags(ks, front, retries, faults);
      var r := TagRun(p.ks, last, 0, retries, faults);
      assert faults(last, 0) == Completes;
      assert r.outcome == Finished;
      ShrinksMembers(ks, p.ks, last);
      forall t | t in order
        ensures TagKey(t) !in r.ks.tagSets
      {
        if t != last {
          assert t in front;
        }
      }
      if last in front {
        MembersInAll(ks, front, last);
      } else {
        forall t | t in front
          ensures TagKey(t) != TagKey(last)
        {
          if TagKey(t) == TagKey(last) {
            TagKeyInjective(t, last);
          }
        }
        assert Members(p.ks, last) == Members(ks, last);
      }
    }
  }

  lemma {:induction false} MembersInAll(ks: Keyspace, order: seq<string>, t: string)
    requires t in order
    ensures Members(ks, t) <= AllMembers(ks, order)
    decreases |order|
  {
    var front := order[..|order| - 1];
    if t != order[|order| - 1] {
      assert t in front;
      MembersInAll(ks, front, t);
    }
  }

  /** Registering a key and then invalidating one of its tags completely removes the key. */
  lemma RegisteredKeyIsInvalidated(ks: Keyspace, key: Fingerprint, tags: set<string>, ttl: int, tag: string)
    requires tag in tags
    ensures var registered := Keyspace(ks.responses, WithMembership(ks.tagSets, key, tags, ttl));
            key !in AttemptEffect(registered, tag, Completes).responses
  {
    var registered := Keyspace(ks.responses, WithMembership(ks.tagSets, key, tags, ttl));
    assert key in Members(registered, tag);
  }

  /** The cache and related tags of one path. */
  function AllTags(path: string): set<string> {
    var info := DeriveTags(path);
    info.cacheTags + info.relatedTags
  }

  /** The union of `f(p)` over the paths, accumulated left to right. */
  function UnionOver(paths: seq<string>, f: string -> set<string>): set<string>
    decreases |paths|
  {
    if paths == [] then {} else UnionOver(paths[..|paths| - 1], f) + f(paths[|paths| - 1])
  }

  lemma {:induction false} UnionOverMembership(paths: seq<string>, f: string -> set<string>, t: string)
    ensures t in UnionOver(paths, f) <==> exists i :: 0 <= i < |paths| && t in f(paths[i])
    decreases |paths|
  {
    if paths != [] {
      var front := paths[..|paths| - 1];
      UnionOverMembership(front, f, t);
      if t in UnionOver(front, f) {
        var i :| 0 <= i < |front| && t in f(front[i]);
        assert paths[i] == front[i];
      }
      if exists i :: 0 <= i < |paths| && t in f(paths[i]) {
        var i :| 0 <= i < |paths| && t in f(paths[i]);
        if i < |front| {
          assert paths[i] == front[i];
        }
      }
    }
  }

  /** The tags `invalidate_paths` collects: every cache and related tag of every path. */
  function PathTags(paths: seq<string>): set<string> {
    UnionOver(paths, AllTags)
  }

  /** A tag is invalidated by `invalidate_paths` exactly when it is a cache or related tag of one of the paths. */
  lemma PathTagsMembership(paths: seq<string>, t: string)
    ensures t in PathTags(paths) <==> exists i :: 0 <= i < |paths| && t in AllTags(paths[i])
  {
    UnionOverMembership(paths, AllTags, t);
  }

  // ---------------------------------------------------------------------------
  // The store.
  // ---------------------------------------------------------------------------

  class Store {
    var responses: map<Fingerprint, Stored>
    var tagSets: map<string, TagSet>

    function State(): Keyspace
      reads this
    {
      Keyspace(responses, tagSets)
    }

    constructor ()
      ensures State() == Keyspace(map[], map[])
    {
      responses := map[];
      tagSets := map[];
    }

    /** `SETEX key ttl value`; Redis refuses a non-positive expiry. */
    method SetEx(key: Fingerprint, ttl: int, value: StoredValue) returns (ok: bool)
      modifies this
      ensures ok == (ttl > 0)
      ensures tagSets == old(tagSets)
      ensures responses == if ok then old(responses)[key := Stored(value, ttl)] else old(responses)
    {
      ok := ttl > 0;
      if ok {
        responses := responses[key := Stored(value, ttl)];
      }
    }

    /** `DEL key` on a response key. */
    method Delete(key: Fingerprint)
      modifies this
      ensures State() == Keyspace(old(responses) - {key}, old(tagSets))
    {
      responses := responses - {key};
    }

    /**
     * `_register_tags`: one pipeline of `SADD` and `EXPIRE` per non-empty tag,
     * applied all together, or not at all when `ok` is false.
     */
    method RegisterTags(key: Fingerprint, tags: set<string>, ttl: int, ok: bool) returns (applied: bool)
      modifies this
      ensures applied == (ok && NonEmptyTags(tags) != {})
      ensures responses == old(responses)
      ensures tagSets == if applied then WithMembership(old(tagSets), key, NonEmptyTags(tags), ttl) else old(tagSets)
    {
      var tagList := NonEmptyTags(tags);
      if tagList == {} {
        return false;
      }
      var pending := tagSets;
      var remaining := tagList;
      ghost var done: set<string> := {};
      while remaining != {}
        invariant remaining + done == tagList && remaining !! done
        invariant pending == WithMembership(tagSets, key, done, ttl)
        invariant responses == old(responses) && tagSets == old(tagSets)
        decreases remaining
      {
        var tag :| tag in remaining;
        var k := TagKey(tag);
        WithMembershipStep(tagSets, key, done, tag, ttl);
        pending := pending[k := TagSet(MembersAt(pending, k) + {key}, ttl)];
        remaining := remaining - {tag};
        done := done + {tag};
      }
      if ok {
        tagSets := pending;
      }
      applied := ok;
    }

    /** `_invalidate_tag`, one call, with the given outcome of its Redis commands. */
    method InvalidateTag(tag: string, a: Attempt)
      modifies this
      ensures State() == AttemptEffect(old(State()), tag, a)
    {
      var key := TagKey(tag);
      var members := if key in tagSets then tagSets[key].members else {};
      match a {
        case Completes =>
          if members != {} {
            responses := responses - members;
          }
          tagSets := tagSets - {key};
        case Fails(_, deleted) =>
          if deleted && members != {} {
            responses := responses - members;
          }
      }
      if members == {} {
        assert old(responses) - members == old(responses);
      }
    }

    /**
     * `_invalidate_tag_set`: each tag in some order, each retried until it
     * completes or `retries` retries are spent; a cancellation returns at once.
     * `order` is the tags tried, in the order tried.
     */
    method InvalidateTagSet(tags: set<string>, retries: int, faults: FaultPlan) returns (order: seq<string>, cancelled: bool)
      modifies this
      ensures RunTags(old(State()), order, retries, faults) == RunResult(State(), cancelled)
      ensures forall i, j :: 0 <= i < j < |order| ==> order[i] != order[j]
      ensures forall t :: t in order ==> t in tags
      ensures !cancelled ==> forall t :: t in tags ==> t in order
      ensures cancelled ==> order != [] && !RunTags(old(State()), order[..|order| - 1], retries, faults).cancelled
    {
      order := [];
      cancelled := false;
      var remaining := tags;
      ghost var start := State();
      while remaining != {}
        invariant remaining <= tags
        invariant forall i, j :: 0 <= i < j < |order| ==> order[i] != order[j]
        invariant forall t :: t in order ==> t in tags && t !in remaining
        invariant forall t :: t in tags ==> t in remaining || t in order
        invariant RunTags(start, order, retries, faults) == RunResult(State(), false)
        decreases remaining
      {
        var tag :| tag in remaining;
        remaining := remaining - {tag};
        ghost var before := State();
        var attempt: nat := 0;
        while true
          invariant var whole := TagRun(before, tag, 0, retries, faults);
                    var rest := TagRun(State(), tag, attempt, retries, faults);
                    rest.ks == whole.ks && rest.outcome == whole.outcome
          decreases RetriesLeft(attempt, retries)
        {
          var a := faults(tag, attempt);
          InvalidateTag(tag, a);
          if a.Completes? {
            break;
          }
          if a.fault == Cancellation {
            RunTagsAppend(start, order, tag, retries, faults);
            order := order + [tag];
            cancelled := true;
            return;
          }
          if attempt >= retries {
            break;
          }
          attempt := attempt + 1;
        }
        RunTagsAppend(start, order, tag, retries, faults);
        order := order + [tag];
      }
    }

    /**
     * `invalidate_tags`: the distinct non-empty tags, one attempt each; a failed
     * attempt moves on, a cancellation propagates (`raised`). Nothing happens
     * when no tag remains or the client cannot be obtained.
     */
    method InvalidateTags(tags: set<string>, available: bool, faults: FaultPlan) returns (order: seq<string>, raised: bool)
      modifies this
      ensures NonEmptyTags(tags) == {} || !available ==> order == [] && !raised && State() == old(State())
      ensures RunTags(old(State()), order, 0, faults) == RunResult(State(), raised)
      ensures forall i, j :: 0 <= i < j < |order| ==> order[i] != order[j]
      ensures forall t :: t in order ==> t in NonEmptyTags(tags)
      ensures available && !raised ==> forall t :: t in NonEmptyTags(tags) ==> t in order
    {
      var filtered := NonEmptyTags(tags);
      if filtered == {} || !available {
        return [], false;
      }
      order, raised := InvalidateTagSet(filtered, 0, faults);
    }

    /** `invalidate_paths`: the union of every path's cache and related tags, then `invalidate_tags`. */
    method InvalidatePaths(paths: seq<string>, available: bool, faults: FaultPlan) returns (tags: set<string>, order: seq<string>, raised: bool)
      modifies this
      ensures tags == PathTags(paths)
      ensures NonEmptyTags(tags) == {} || !available ==> order == [] && !raised && State() == old(State())
      ensures RunTags(old(State()), order, 0, faults) == RunResult(State(), raised)
      ensures forall i, j :: 0 <= i < j < |order| ==> order[i] != order[j]
      ensures forall t :: t in order ==> t in NonEmptyTags(tags)
      ensures available && !raised ==> forall t :: t in NonEmptyTags(tags) ==> t in order
    {
      tags := {};
      for i := 0 to |paths|
        invariant tags == PathTags(paths[..i])
      {
        assert paths[..i + 1][..i] == paths[..i];
        var info := DeriveTags(paths[i]);
        tags := tags + info.cacheTags;
        tags := tags + info.relatedTags;
        assert tags == UnionOver(paths[..i], AllTags) + AllTags(paths[i]);
      }
      assert paths[..|paths|] == paths;
      order, raised := InvalidateTags(tags, available, faults);
    }
  }
}
