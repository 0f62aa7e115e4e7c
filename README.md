# Comics library backend: response cache, image jobs and search, in Dafny

This project models the core of the comics library backend, a FastAPI service
over a SQLite catalogue of series, issues and copies, with images stored on
disk. Dafny 4.11 proves properties of that model. The core covered is:

- **Tag derivation** (`Tags`). Every request path is mapped to exactly one
  cache tag and at most one related tag. The series → issues → copies → images
  hierarchy and the flat `issues` alias name resources. The `v1/jobs` route
  gets job tags. Every other path gets a raw `path:` fallback tag.
- **The tag store** (`CacheStore`). A Redis keyspace is modelled as a map of
  response keys plus a map of tag sets (`cache:tag:{tag}`). The store's
  failures are an abstract plan, `FaultPlan`, that gives the outcome of every
  attempt. The class `Store` models:
  - registration of a key under its tags;
  - single-tag invalidation;
  - the retrying tag-set loop;
  - `invalidate_tags` and `invalidate_paths`.
- **The response cache middleware** (`ResponseCache`). It models:
  - the TTL from the environment;
  - the cache key;
  - the stored-header filter;
  - the read path (serve a stored entry, or call the handler and store the
    response; a failed delete of an entry that does not decode raises);
  - the mutation path (call the handler, then invalidate the path's tags);
  - `dispatch`.
- **The job tracker** (`Jobs`). The job table is a map of records. Its
  transitions are written once as the function `Apply`. `ImageJobManager`'s
  methods are proved against that function.
- **Paging** (`Paging`). A page token is the decimal offset of the page's first
  row.
- **Title matching** (`Search`). It models tokenization, the space-joined and
  run-together texts, and `matches_search`.
- **Image storage** (`Storage`). It models component sanitizing, the series and
  issue directories, file naming, type parsing, the safe-name check, and
  listing and deleting a copy's images. The image root is a map from
  `(series dir, issue dir, name)` to the stored bytes.
- **Issue search** (`IssueSearch`). It models the skip/limit walk over the
  matching series' issues, and `search_issues` with its error answers. Its
  results are proved equal to a reference page function, `PageAt`.
- **Image routes** (`ImageRoutes`). It models the upload guard and job
  creation, then the background processing. The processing marks the job,
  saves the image and invalidates the affected paths, in the order the route
  does.

Python's `str(int)`, `int(str)`, `split`, `join`, `strip`, `lower` and `<` on
strings are written out in `Text`, `Storage` and `Wrappers`, and proved where
the model relies on them: `int(str(i)) == i`, split/join round trips, and a
total order.

Three observations the proofs make precise:

- **Versioned paths fall back.** The library package mounts its routers under
  `/v1` (app/routers/library/__init__.py:6). Tag derivation only recognises
  `v1` in front of `jobs`. So `/v1/series/42` gets `path:/v1/series/42` rather
  than `series:42` (`Tags.VersionedPathFallsBack`). A mutation of a series
  therefore leaves a cached read of `/v1/series` in place
  (`ResponseCache.VersionedMutationLeavesListStale`).
- **The un-prefixed images path.** After a save, the background job
  invalidates `/series/{s}/issues/{i}/copies/{c}/images` without the prefix.
  That path maps to the hierarchy's images and copy tags
  (`ImageRoutes.CompletedSaveTags`). The tests read the listing at the `/v1`
  path (tests/test_main.py:276). A cached read of that path carries only its
  raw-path tag. The tags invalidated after a save would not include it
  (`ImageRoutes.CachedListingIsNotInvalidated`).
- **Terminal job states can be overwritten.** No job transition looks at the
  current status, so a completed job can later be marked failed
  (`Jobs.TerminalStatusIsOverwritten`).

## Model

| member | source | states |
|---|---|---|
| Tags.Segments | app/cache.py:139 | the non-empty pieces of the path between `/`, each a usable segment |
| Tags.SeriesTags | app/cache.py:156-184 | descent below `series` gives one non-empty cache tag and at most one related tag |
| Tags.IssueCopyTags | app/cache.py:187-201 | descent below `issues` gives one non-empty cache tag and at most one related tag |
| Tags.DeriveTags | app/cache.py:137-153 | total: exactly one non-empty cache tag, at most one related tag, `root` for an empty path |
| Tags.DeriveTagsHasCacheTag | app/cache.py:137-153 | the cache tags of every path are a single tag |
| Tags.DeriveTagsByClassification | app/cache.py:137-201 | the tags are the hierarchy's tags for the resource the segments address, or the raw `path:` fallback when none matches |
| Tags.SeriesByClassification | app/cache.py:156-184 | under `series`, the tags `_series_tags` returns are the hierarchy's tags for the series, issue, copy or image list the segments address, or the `path:` fallback |
| Tags.IssuesByClassification | app/cache.py:187-201 | under `issues`, the tags `_issue_copy_tags` returns are the hierarchy's tags for the issue or copy the segments address, or the `path:` fallback |
| Tags.Related | app/cache.py:156-201 | the related resource of a resource is a proper prefix of it, and well-formed when it is |
| Tags.ClassifyResourceSegments | app/cache.py:156-201 | each resource of the hierarchy is recognised again from its own segments |
| Tags.SegmentsOfJoin | app/cache.py:139 | a path joined from segments splits back into them, with or without a leading `/` |
| Tags.DeriveTagsOfClassified | app/cache.py:137-201 | a path whose segments address a resource derives that resource's tags |
| Tags.DeriveTagsOfResource | app/cache.py:137-201 | the path of every well-formed resource derives exactly the hierarchy's cache and related tags |
| Tags.RelatedTagIsAncestorTag | app/cache.py:156-201 | a resource's related tag is the cache tag of the resource it belongs to |
| Tags.IssueCopyIgnoresTrailingSegments | app/cache.py:196-201 | below the flat alias, segments after the copy id do not change the tags, and a copy gets its copy tag related to the copies list |
| Tags.DeriveTagsOfSegments | app/cache.py:137-201 | the tags of a path written from known segments, by classification |
| Tags.VersionedPathFallsBack | app/cache.py:148-153 | a path starting with `v1` but not `v1/jobs` gets only `path:{path}` |
| Tags.VersionedSeriesPathFallsBack | app/cache.py:148-153 | `/v1/series/{id}` gets `path:/v1/series/{id}`, not `series:{id}` |
| Tags.SeriesUnknownChildFallsBack | app/cache.py:163-164 | `series/{id}/{child}` for a child other than `issues` gets the joined-segments fallback |
| CacheStore.TagKeyInjective | app/cache.py:26 | distinct tags have distinct tag-set keys |
| CacheStore.NonEmptyTags | app/cache.py:122 | exactly the non-empty tags are kept |
| CacheStore.WithMembership | app/cache.py:351-355 | every given tag's set gains the key with the new expiry; other tag sets are untouched; no other set appears |
| CacheStore.WithMembershipStep | app/cache.py:351-354 | adding one more tag to the pipeline is one more `SADD`/`EXPIRE` on top of the earlier ones |
| CacheStore.TagRun | app/cache.py:370-391 | one tag is tried at most retries+1 times; giving up means every attempt was spent; a finished tag has its members and its set deleted |
| CacheStore.ShrinksMembers | app/cache.py:358-364 | invalidation never adds to a tag's set |
| CacheStore.ShrinksTransitive | app/cache.py:358-364 | deleting and then deleting again only deletes |
| CacheStore.RunTagsOnlyDeletes | app/cache.py:358-391 | whatever the faults, invalidation only deletes; keys outside the tags' sets and other tags' sets survive |
| CacheStore.RunTagsReliable | app/cache.py:358-391 | without faults the run is not cancelled, and neither the tag sets nor any key they listed remain |
| CacheStore.MembersInAll | app/cache.py:370 | a tag's members are among the members of the tags iterated |
| CacheStore.RegisteredKeyIsInvalidated | app/cache.py:344-364 | registering a key and then invalidating one of its tags removes the key |
| CacheStore.UnionOverMembership | app/cache.py:113-116 | a tag is in the accumulated union exactly when some path contributes it |
| CacheStore.PathTagsMembership | app/cache.py:110-116 | `invalidate_paths` collects exactly the cache and related tags of the given paths |
| CacheStore.Store.constructor | app/cache.py:100-103 | a fresh keyspace is empty |
| CacheStore.Store.SetEx | app/cache.py:289 | `SETEX` stores the value with its expiry, and refuses a non-positive expiry |
| CacheStore.Store.Delete | app/cache.py:277 | `DEL` removes one response key and nothing else |
| CacheStore.Store.RegisterTags | app/cache.py:344-356 | nothing is done without a non-empty tag; else every non-empty tag's set lists the key, all or nothing |
| CacheStore.Store.InvalidateTag | app/cache.py:358-364 | the effect of one attempt: members then the set are deleted, as far as the attempt got |
| CacheStore.Store.InvalidateTagSet | app/cache.py:367-391 | tags are tried one at a time, each once, only given tags; all of them unless cancelled; a cancellation ends the run at once |
| CacheStore.Store.InvalidateTags | app/cache.py:120-134 | empty and repeated tags are dropped; nothing happens when none remain or no client is available; each tag gets one attempt and a failure moves on |
| CacheStore.Store.InvalidatePaths | app/cache.py:110-134 | invalidates exactly the union of the paths' cache and related tags, as `invalidate_tags` does |
| ResponseCache.CacheTtl | app/cache.py:204-212 | at least 1; the default 60 when the variable is unset or empty |
| ResponseCache.CacheTtlOfInteger | app/cache.py:208-212 | an integer value gives `max(value, 1)` |
| ResponseCache.CacheTtlOfGarbage | app/cache.py:208-211 | a value `int()` refuses gives the default |
| ResponseCache.EffectiveTtl | app/cache.py:231 | a non-zero configured TTL is used as is, otherwise the environment's at least 1 |
| ResponseCache.CacheKeyIdentifies | app/cache.py:315-327 | two requests share a key exactly when method, path, query and accept header agree |
| ResponseCache.ReplaceHeader | app/cache.py:272-273 | assigning a header leaves one value under its name and others untouched |
| ResponseCache.SetHeader | app/cache.py:272-273 | after `headers[name] = value` the name (lower-cased) has exactly that value; other names keep theirs |
| ResponseCache.CacheHeaderIsLowercase | app/cache.py:273 | `x-cache` is its own lower-cased name |
| ResponseCache.DictPut | app/cache.py:340 | `d[k] = v` makes `k` read `v` and changes no other key |
| ResponseCache.DictPutDistinct | app/cache.py:340 | a dict never holds a key twice after an assignment |
| ResponseCache.CachedHeadersLookup | app/cache.py:335-341 | a header is stored with its last value unless its name is `content-length`, `date` or `server` in any case |
| ResponseCache.CachedHeadersDistinct | app/cache.py:335-341 | the stored headers have distinct names |
| ResponseCache.ReplayValues | app/cache.py:271-272 | replaying stored headers leaves each name with its last stored value or its earlier value |
| ResponseCache.HitResponseHeaders | app/cache.py:266-274 | a hit carries `x-cache: hit` and, for every other name, the last stored value |
| ResponseCache.MissResponseHeaders | app/cache.py:300-302 | a miss carries `x-cache: miss` and otherwise the handler's status, body and headers |
| ResponseCache.ReadTags | app/cache.py:247-249 | a read registers under the path's cache tags |
| ResponseCache.ReadHit | app/cache.py:252-274 | a hit serves the stored status and body, does not call the handler and changes nothing |
| ResponseCache.ReadMiss | app/cache.py:256-302 | a miss raises, calling no handler and changing nothing, exactly when an undecodable entry cannot be deleted; otherwise it calls the handler and returns its status and body, marked `miss` |
| ResponseCache.ReadMissStores | app/cache.py:281-290 | a miss below 500 whose write succeeds stores the response without transport headers and lists the key under every cache tag |
| ResponseCache.ServerErrorsAreNotCached | app/cache.py:281 | a response of 500 or more adds no key and no tag set |
| ResponseCache.ReadAfterStoreHits | app/cache.py:246-302 | after a stored miss, the same request is a hit with the original status and body, without calling the handler |
| ResponseCache.NoStaleHitAfterMutation | app/cache.py:246-313 | after a fault-free invalidation of a path's tags, a stored read of that path is gone and the next read calls the handler |
| ResponseCache.MutationInvalidatesRelatedRead | app/cache.py:304-313 | a mutation of a resource removes a stored read of its related resource |
| ResponseCache.StoredReadSurvivesOtherTags | app/cache.py:358-391 | from any keyspace, a read stored under its own tags survives any invalidation of other tags that did not list its key, whatever the faults, and is served again with the stored status and body |
| ResponseCache.UnregisteredTagKeepsMembers | app/cache.py:344-355 | a read leaves the members of every tag outside its path's cache tags unchanged |
| ResponseCache.VersionedMutationLeavesListStale | app/cache.py:148-153 | from any keyspace, a mutation of `/v1/series/{id}` leaves a read of `/v1/series` stored before it in place, and it is served again |
| ResponseCache.KeyOutsideAllMembers | app/cache.py:360-362 | a key listed under none of the tags is not among their members |
| ResponseCache.Middleware.constructor | app/cache.py:221-231 | the middleware's TTL is `cache_ttl_seconds or _cache_ttl()` |
| ResponseCache.Middleware.CacheHeaders | app/cache.py:335-341 | the header filter loop builds exactly the stored-header dict |
| ResponseCache.Middleware.HandleRead | app/cache.py:246-302 | the store afterwards and whether the request raised are those of the read step; a raised request calls no handler; otherwise the response and whether the handler ran are the read step's |
| ResponseCache.Middleware.HandleMutation | app/cache.py:304-313 | the handler's response is returned unchanged; at 500 or more nothing is invalidated; below, exactly the path's tags are tried with retries |
| ResponseCache.Middleware.Dispatch | app/cache.py:233-244 | without a client only the handler runs; `GET` in any case takes the read path, raising where it raises; every other method the mutation path, which does not raise |
| Schemas.ImageTypeOf | app/schemas.py:178-187 | `ImageType(value)` finds the member whose value it is |
| Schemas.ImageTypeOfValue | app/schemas.py:178-187 | every member is found again from its value |
| Schemas.TypeValueUnderscore | app/schemas.py:185-186 | only the two interior cover values contain `_` |
| Jobs.Require | app/jobs.py:77-81 | the record when the id is known, else `KeyError(id)` |
| Jobs.Apply | app/jobs.py:32-68 | a mark on an unknown id raises `KeyError` and changes nothing; otherwise only the target record changes, and stays the same job |
| Jobs.MarkInProgressEffect | app/jobs.py:51-55 | `in_progress`, no detail, result kept |
| Jobs.MarkCompletedEffect | app/jobs.py:57-62 | `completed`, no detail, the given result |
| Jobs.MarkFailedEffect | app/jobs.py:64-68 | `failed`, the given detail, an earlier result kept |
| Jobs.Run | app/jobs.py:32-81 | no job disappears and every record stays filed under its own id |
| Jobs.RunLeavesOthers | app/jobs.py:51-68 | a job no operation names is left exactly as it was |
| Jobs.CompletedLifecycle | app/jobs.py:13-22 | create, start and complete give a `completed` record with the result and no detail |
| Jobs.FailedLifecycle | app/jobs.py:13-22 | create, start and fail give a `failed` record with the message and no result |
| Jobs.TerminalStatusIsOverwritten | app/jobs.py:57-68 | a completed job can be marked failed and keeps its result |
| Jobs.ImageJobManager.constructor | app/jobs.py:28-30 | the table starts empty |
| Jobs.ImageJobManager.CreateJob | app/jobs.py:32-49 | the new pending record is filed under its id and returned; others are untouched |
| Jobs.ImageJobManager.MarkInProgress | app/jobs.py:51-55 | the table and the error are those of `Apply` |
| Jobs.ImageJobManager.MarkCompleted | app/jobs.py:57-62 | the table and the error are those of `Apply` |
| Jobs.ImageJobManager.MarkFailed | app/jobs.py:64-68 | the table and the error are those of `Apply` |
| Jobs.ImageJobManager.GetJob | app/jobs.py:70-75 | None exactly for an unknown id, else the stored record, carrying that id |
| Paging.ParsePageToken | app/routers/library/helpers.py:18-27 | a missing or empty token is 0; every accepted offset is at least 0; every refusal is 400 `invalid page_token` |
| Paging.NextPageToken | app/routers/library/helpers.py:30-33 | a token is handed out exactly when more rows were found than fit on the page |
| Paging.ParseNextPageToken | app/routers/library/helpers.py:18-33 | a handed-out token parses back to `offset + page_size` |
| Paging.ParsePageTokenAccepts | app/routers/library/helpers.py:18-27 | a token is accepted exactly when empty or an integer that is not negative, and then reads as that integer |
| Paging.ParsePageTokenOfInt | app/routers/library/helpers.py:21-27 | the decimal form of a natural number is accepted back; that of a negative number is refused |
| Text.TrimStart | app/cache.py:139 | drops exactly the longest leading run of the given characters |
| Text.TrimEnd | app/cache.py:139 | drops exactly the longest trailing run of the given characters |
| Text.Split | app/cache.py:139 | at least one piece, none containing the separator |
| Text.NonEmptyParts | app/cache.py:139 | only non-empty pieces of the input are kept |
| Text.NonEmptyPartsKeepsNonEmpty | app/cache.py:139 | pieces that are all non-empty are kept as they are |
| Text.JoinSplit | app/cache.py:139 | splitting and joining with the same separator gives the text back |
| Text.SplitWithoutSeparator | app/storage.py:225 | text without the separator is a single piece |
| Text.SplitAtFirstSeparator | app/storage.py:225 | the first piece ends at the first separator |
| Text.SplitJoin | app/cache.py:139 | joining pieces free of the separator and splitting again gives them back |
| Text.NatToString | app/routers/library/helpers.py:32 | `str(n)` is a non-empty run of digits |
| Text.IntToString | app/routers/library/helpers.py:32 | `str(i)` is non-empty digits with an optional leading `-` |
| Text.DigitsValueOfNatToString | app/routers/library/helpers.py:22 | the digits of `str(n)` denote `n` |
| Text.ParseIntToString | app/routers/library/helpers.py:22 | `int(str(i)) == i` |
| Text.IntToStringInjective | app/routers/library/helpers.py:32 | distinct numbers are written differently |
| Text.ContainsIffOccurs | app/routers/library/search_utils.py:70-72 | `sub in s` exactly when `sub` occurs at some position |
| Search.TokenLength | app/routers/library/search_utils.py:8 | the longest prefix of token characters |
| Search.Runs | app/routers/library/search_utils.py:8 | the runs are non-empty token text taken from the input |
| Search.Tokenize | app/routers/library/search_utils.py:11-13 | every token is a non-empty run of digits and lower-case letters |
| Search.TokenChars | app/routers/library/search_utils.py:8 | only token characters are kept |
| Search.MatchesSearch | app/routers/library/search_utils.py:55-88 | a query without tokens matches; a title without tokens matches no query with tokens; a shared token matches |
| Search.CollapsedRuns | app/routers/library/search_utils.py:21-23 | the runs put together are exactly the token characters |
| Search.CollapsedTokenize | app/routers/library/search_utils.py:11-23 | `_collapsed_text(tokenize(s))` is the letters and digits of `s.lower()` |
| Search.RunsOfJoin | app/routers/library/search_utils.py:8 | tokens joined by a non-token character tokenize back to themselves |
| Search.TokenizeNormalized | app/routers/library/search_utils.py:11-18 | tokenizing the normalized text gives the same tokens |
| Search.SplitNormalized | app/routers/library/search_utils.py:16-18 | splitting the normalized text at spaces gives the tokens back |
| Search.LowerChars | app/routers/library/search_utils.py:13 | lower-casing is idempotent and undoes upper-casing |
| Search.MatchesSearchIgnoresCase | app/routers/library/search_utils.py:55-88 | letter case of title or query never changes the outcome |
| Search.MatchesItself | app/routers/library/search_utils.py:55-73 | every title matches itself |
| Search.PunctuationIsIgnored | app/routers/library/search_utils.py:65-73 | words separated by punctuation match the same words run together (`X-Men` and `xmen`) |
| Search.InTokenChars | app/routers/library/search_utils.py:11-23 | a character of the collapsed tokens is a letter or digit of the lower-cased text |
| Search.MatchNeedsSharedCharacter | app/routers/library/search_utils.py:55-88 | a query with tokens matches only a title sharing a letter or digit with it |
| Search.PartialWordMatches | app/routers/library/search_utils.py:82-85 | a query token of three or more characters inside a title token is enough |
| Search.MatchesSearchCases | app/routers/library/search_utils.py:55-88 | with query tokens, a match holds exactly when the normalized or collapsed query is inside the title's, a token is shared, or a fuzzy pair exists |
| Search.CharInContaining | app/routers/library/search_utils.py:70 | every character of a contained text occurs in the containing text |
| Search.XtremFindsXTreme | tests/test_main.py:455-476 | `Xtrem` matches `X-Treme X-Men, Vol. 1` |
| Search.XtremMissesXFarce | tests/test_main.py:455-476 | `Xtrem` does not match `X-Farce` |
| Storage.ReplaceUnsafeRuns | app/storage.py:20 | the result is safe text; safe text is unchanged; a safe first character is kept |
| Storage.Sanitize | app/storage.py:193-196 | the fallback, or clean safe text without `_` at either end |
| Storage.SanitizeKeepsClean | app/storage.py:193-196 | a clean component is returned unchanged |
| Storage.SanitizeIdempotent | app/storage.py:193-196 | sanitizing twice is sanitizing once, when the fallback is clean |
| Storage.SanitizeKeepsFirst | app/storage.py:193-196 | a leading safe character other than `_` survives |
| Storage.IdFallbackIsPlain | app/storage.py:177-188 | the `{prefix}{id}` fallbacks are plain directory names |
| Storage.SeriesDirectoryAsWritten | app/storage.py:176-179 | the sanitized title, or `series_{id}`, as the code computes it |
| Storage.SeriesDirectoryEscapesRoot | app/storage.py:176-179 | the series titled `..` is stored in the parent of the image root |
| Storage.SeriesDirectory | app/storage.py:176-179 | a plain directory name, equal to the code's whenever that is not `.` or `..` |
| Storage.CleanTitleIsDirectory | app/storage.py:176-179 | a clean title names its own directory |
| Storage.IssueLabel | app/storage.py:185-186 | `issue_` and the number, sanitized: clean, starting with `i` |
| Storage.VariantLabel | app/storage.py:188 | the sanitized variant is clean |
| Storage.IssueDirectory | app/storage.py:182-190 | always a plain directory name starting with `i` |
| Storage.IssueDirectoryWithoutNumber | app/storage.py:185-186 | an issue without a number is stored under `issue_issue_{id}` |
| Storage.PathComponents | app/storage.py:207 | the components `pathlib` keeps are non-empty, not `.`, free of `/` |
| Storage.PathName | app/storage.py:207 | `Path(p).name` contains no `/` |
| Storage.LastIndexOf | app/storage.py:207 | the last index of the character, or -1 when absent |
| Storage.Suffix | app/storage.py:207-208 | the suffix is empty or a dot followed by at least one character |
| Storage.ParseImageTypeAsWritten | app/storage.py:220-232 | the code's reading: the type is the text up to the next `_` after the copy prefix |
| Storage.TypeWithPrefix | app/storage.py:224-232 | the first type whose value and `_` begin the text, or none when no type does |
| Storage.ParseImageType | app/storage.py:220-232 | a recognised type's value and `_` follow the copy prefix |
| Storage.ParseNamed | app/storage.py:199-232 | any name with the copy prefix, a type's value and `_` reads back as that type |
| Storage.ParseBuiltFilename | app/storage.py:199-232 | every built file name reads back as the type it was saved with |
| Storage.ParseInteriorNamedAsWritten | app/storage.py:220-232 | as written, a name with an interior cover type parses to None |
| Storage.ParseSimpleNamedAsWritten | app/storage.py:220-232 | as written, a name with a type free of `_` parses to that type |
| Storage.InteriorTypesAreNotParsed | app/storage.py:199-232 | as written, an image saved as an interior cover is not recognised |
| Storage.SimpleTypesAreParsed | app/storage.py:199-232 | as written, built names of types without `_` round-trip |
| Storage.OtherCopiesAreNotParsed | app/storage.py:220-223 | files of another copy are never taken for this copy's |
| Storage.CopyPrefixesDiffer | app/storage.py:221-222 | `copy{a}_` begins `copy{b}_` only when the numbers are written alike |
| Storage.IsSafeFilenameIff | app/storage.py:257-269 | a name is accepted exactly when non-empty, free of `/` and `\`, and neither `.` nor `..` |
| Storage.StrLessIrreflexive | app/storage.py:106 | no name sorts before itself |
| Storage.StrLessTransitive | app/storage.py:106 | sorting order is transitive |
| Storage.StrLessTotal | app/storage.py:106 | distinct names are ordered one way or the other |
| Storage.HasLeast | app/storage.py:106 | every non-empty set of names has a least one |
| Storage.CopyFilesAt | app/storage.py:214-217 | the files iterated are exactly those of the directory with the copy prefix |
| Storage.ListsAppend | app/storage.py:106-119 | appending a larger readable name keeps the listing exact and sorted |
| Storage.ListStep | app/storage.py:106-119 | taking the least remaining name, and listing it when readable, keeps the loop's invariant |
| Storage.WithoutUnion | app/storage.py:243-253 | removing two batches of names is removing their union |
| Storage.ImageRoot.constructor | app/storage.py:36-42 | a fresh image root holds no file |
| Storage.ImageRoot.SaveCopyImage | app/storage.py:45-77 | the payload is written under the built name in the copy's directory, and described with that name and relative path |
| Storage.ImageRoot.ListImagesIn | app/storage.py:98-120 | the copy's readable files, each once, sorted by name, each described with its parsed type |
| Storage.ImageRoot.ListCopyImages | app/storage.py:80-95 | the listing of the copy's directory |
| Storage.ImageRoot.DeleteImagesIn | app/storage.py:235-254 | removes exactly the copy's files of the type not excluded, and counts them |
| Storage.ImageRoot.DeleteCopyImagesByType | app/storage.py:123-148 | the deletion in the copy's directory, with a missing `exclude` as the empty set |
| Storage.ImageRoot.DeleteCopyImageByName | app/storage.py:151-173 | an unsafe name is refused before anything is touched; otherwise the file is removed exactly when it is there, and only it |
| Storage.SavedImageIsListed | app/storage.py:45-120 | a saved image is listed afterwards, with its own type |
| IssueSearch.MatchingSeries | app/routers/library/issues.py:243-245 | only matching series of the ranking are kept |
| IssueSearch.MatchingSeriesKeepsMatches | app/routers/library/issues.py:243-245 | no matching series is dropped |
| IssueSearch.MatchingSeriesIff | app/routers/library/issues.py:243-245 | a series is kept exactly when its title (or the empty text) matches |
| IssueSearch.IssuesOf | app/routers/library/issues.py:211-221 | exactly the issue rows of the series |
| IssueSearch.Groups | app/routers/library/issues.py:210-221 | one issue list per ranked series, in ranking order |
| IssueSearch.InFlatten | app/routers/library/issues.py:210-228 | a row is walked exactly when it is in one of the groups |
| IssueSearch.MatchesAreIssuesOfMatchingSeries | app/routers/library/issues.py:203-254 | a searched row is an issue of a matching series, and every issue of such a series is searched |
| IssueSearch.CollectMatchingIssueRows | app/routers/library/issues.py:203-229 | the flattened rows with the first `offset` dropped, cut to `limit` rows (one when `limit` is below 1) |
| IssueSearch.Window | app/routers/library/issues.py:222-228 | at most `limit` rows, exactly `min(limit, rows after the skipped ones)` |
| IssueSearch.WindowFull | app/routers/library/issues.py:226-228 | the early return happens exactly with the window |
| IssueSearch.WindowToEnd | app/routers/library/issues.py:229 | a walk to the end returns exactly the window |
| IssueSearch.FlattenStep | app/routers/library/issues.py:210 | the walk over the groups is one group then the rest |
| IssueSearch.Advance | app/routers/library/issues.py:222-226 | one row further along the flattened walk |
| IssueSearch.PageAtBounds | app/routers/library/helpers.py:18-33 | a page holds at most `page_size` rows; a token is handed out exactly when rows remain; it parses back to the next offset |
| IssueSearch.FollowPagesTiles | app/routers/library/issues.py:39-50 | following every next token from an offset yields every row from there, each once, in order |
| IssueSearch.ThreeRowsInPagesOfTwo | tests/test_main.py:490-511 | three rows in pages of two: the first page hands out `2`, the second ends the list |
| IssueSearch.PageOfWindow | app/routers/library/issues.py:40-49 | fetching one row more than the page and cutting it gives the reference page |
| IssueSearch.FetchPage | app/routers/library/issues.py:40-50 | fetching one row more than the page and cutting it gives exactly the reference page of the matching rows at that offset |
| IssueSearch.HandleSearch | app/routers/library/issues.py:35-50 | 400 for a query that strips to nothing, 400 for a bad token, otherwise exactly the reference page of the matching rows |
| IssueSearch.SearchIssues | app/routers/library/issues.py:23-50 | 422 below one character or outside the page size bounds; 400 for a blank query or a bad token; otherwise exactly the reference page of the matching rows |
| ImageRoutes.NumberIsSegment | app/routers/library/images.py:148 | a decimal number is a usable path segment |
| ImageRoutes.PathTagsOfTwo | app/cache.py:110-116 | the tags of one or two paths are their own tags' union |
| ImageRoutes.JobPathTags | app/routers/library/images.py:133 | `/v1/jobs/{id}` carries only `jobs:{id}` |
| ImageRoutes.CopyImagesPath | app/cache.py:180-183 | the hierarchy's images path of a copy, written out |
| ImageRoutes.ImagesPathIsResource | app/routers/library/images.py:148 | the path invalidated after a save is the hierarchy's images path of the copy |
| ImageRoutes.CopyImagesTags | app/cache.py:180-183 | that path carries the images tag and, related, the copy tag |
| ImageRoutes.CompletedSaveTags | app/routers/library/images.py:145-150 | after a save, exactly the job's tag, the copy's images tag and the copy's tag are invalidated |
| ImageRoutes.ListingPathFallsBack | app/cache.py:153 | the `/v1` listing path carries only its raw-path tag |
| ImageRoutes.CopyTagsStartWithS | app/cache.py:160-181 | the hierarchy's copy tags begin with `s` |
| ImageRoutes.CachedListingIsNotInvalidated | app/routers/library/images.py:145-150 | a listing cached under `/v1` is not among the tags invalidated after a save |
| ImageRoutes.UploadCopyImage | app/routers/library/images.py:55-92 | an empty payload is 400 before anything else; a failed lookup passes through; neither creates a job; otherwise a pending job is created, returned and queued |
| ImageRoutes.ReportSave | app/routers/library/images.py:134-150 | a failed save marks the job failed with the message and invalidates its path; a save marks it completed with the image and invalidates both paths |
| ImageRoutes.ProcessImageJob | app/routers/library/images.py:126-150 | an unknown job raises before anything changes; otherwise the job is started and its path invalidated first, then failed or completed as the save went; without faults both invalidations run and the job's cached entries are gone |
| ImageRoutes.NextAfterStart | app/jobs.py:51-68 | two successful steps are the run of both |
| ImageRoutes.InvalidatedTagIsGone | app/cache.py:358-391 | after a fault-free run over a tag, neither its set nor any key it listed remains |

## Left out

- Redis client management (app/cache.py:37-107) is connection plumbing. The
  middleware and `invalidate_tags` take an `available` flag for whether a
  client was obtained.
- SHA-256, JSON and base64 are foreign library calls. The cache key is the
  descriptor it digests, so it is injective by construction. A stored value
  is an entry, a value that does not decode (`Undecodable`), or an empty one
  (`Blank`).
- The backoff sleeps of the retry loop are timing. Only the attempt count is
  modelled.
- The tracker's lock is concurrency, so the tracker is sequential. The
  `uuid4` job id, the timestamp and the token of a file name are parameters.
- File I/O (`mkdir`, `open`, `iterdir`, `unlink`, `exists`) is modelled as a
  map from location to bytes. A directory that does not exist is one with no
  file in it.
- The file disappearing between the listing and the `unlink` in
  `_delete_images_by_type_sync` (the `FileNotFoundError` branch) is a race
  with another process. It cannot happen in the sequential model.
- `fuzzy_score` uses `difflib` and float scores. The series table is passed
  in ranking order. Filtering the rows first and then sorting them stably
  gives the same sequence as keeping the matches of a ranked list.
- `Lower` and `Upper` cover ASCII letters only. `strip` and `int()` cover the
  whitespace characters up to U+00A0, and `int()` only ASCII digits. Python
  also accepts other Unicode whitespace and non-ASCII decimal digits.
- Tag-set and response expiry are not modelled. Entries carry their TTL and
  never expire.
- The headers the framework adds to a response, and the media-type header it
  derives, are not modelled. A response is status, media type, header list
  and body.
- `main.py` never adds the middleware. The library package's router does not
  include the images router. The model follows each module as written and
  does not model the wiring.
- `_build_context` is database access. Its result, an image context or the
  404 its helpers raise, is a parameter of `UploadCopyImage`.
- The `get_job` route in app/routers/jobs.py (404 for an unknown job) is not
  part of this model. The tracker's `GetJob` returns None for it.
- The list route `list_copy_images` of images.py is the storage listing after
  the database lookup. Only the storage side, `ListCopyImages`, is modelled.
- The 422 that request validation returns names every failing parameter.
  `SearchIssues` returns the first failing parameter.
- The issue rows keep only the columns the search uses. The SQL
  `ORDER BY issue_nr, variant, issue_id` is the given order of the issue
  table.
- Storage.Suffix: only states the shape of the suffix (empty, or a dot and at
  least one more character), not which dot `pathlib` picks.
- A save that writes part of the file and then fails is modelled as a failed
  save that writes nothing.
- A cancellation raised by the save itself is not modelled. A cancellation of
  the invalidation ends the job's processing (`StoreCancelled`).
- SaveCopyImage: writes into the corrected `SeriesDirectory` (see
  "## Findings"). As written, a series title that sanitizes to `.` or `..`
  names the root itself or its parent, and the file lands there.
- ListImagesIn: lists the files the corrected `ParseImageType` accepts. As
  written, a file of an interior-cover type parses to None and is skipped.
- ListCopyImages: lists by the corrected parse in the corrected series
  directory. As written, it skips interior-cover files and reads the `.`/`..`
  directory of such a title.
- DeleteImagesIn: deletes and counts the files the corrected `ParseImageType`
  gives the requested type. As written, interior-cover files are kept and not
  counted.
- DeleteCopyImagesByType: the corrected parse in the corrected series
  directory, as for `DeleteImagesIn` and `ListCopyImages`.
- DeleteCopyImageByName: looks in the corrected series directory. As written,
  a title that sanitizes to `.` or `..` is looked up outside the root's
  children.
- SavedImageIsListed: holds for the corrected parse and directory. As written,
  an image of an interior-cover type is saved but not listed
  (`Storage.InteriorTypesAreNotParsed`).
- ReportSave: the save lands in the corrected series directory, as for
  `SaveCopyImage`.
- ProcessImageJob: the save lands in the corrected series directory, as for
  `SaveCopyImage`.

## Findings

| source | as written | input that shows it | evidently intended | confidence | as-written member | corrected member |
|---|---|---|---|---|---|---|
| app/storage.py:220-232 | the type is the text between `copy{id}_` and the next `_`, so `interior_front_cover` is read as `interior` and refused | an image saved as `copy5_interior_front_cover_20240101T000000_abcd1234.jpg` for copy 5 parses to None and is not listed | every saved image is listed with its type, as tests/test_storage.py:103-124 expects | not executed | Storage.InteriorTypesAreNotParsed | Storage.ParseBuiltFilename |
| app/storage.py:176-179 | a title that sanitizes to `.` or `..` is used as the series directory | the series titled `..` is stored under `root/..`, outside the image root | a directory name that is a real child of the root, falling back to `series_{id}` | not executed | Storage.SeriesDirectoryEscapesRoot | Storage.SeriesDirectory |
