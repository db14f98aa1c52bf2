# any-hub: a verified model

any-hub is a caching proxy for package registries. This project models its core in Dafny and
proves what the cache, the disk store and the address rewriting promise.

| file | models |
|---|---|
| `Text.dfy`, `GoPath.dfy`, `Urls.dfy` | the string functions, `path.Clean` as a segment stack, and URL parsing and printing for URLs without user info or percent escapes |
| `CacheKeys.dfy`, `RequestLocators.dfy` | how a request becomes a locator and a locator a file: query marker, npm and Go rewrites, paths below the hub directory |
| `Docker.dfy` | repository path splitting, the `library/` rewrite, the registry.k8s.io manifest fallback, the cache policy |
| `Auth.dfy` | parsing of `Www-Authenticate` headers |
| `ComposerLinks.dfy`, `ComposerMetadata.dfy` | Composer dist links, the mirror route, and the in-place rewriting of package metadata with its registry |
| `PyPI.dfy` | the rewriting of simple-index pages and the way back from a rewritten link |
| `Hubs.dfy` | the registry that maps Host headers to hubs |
| `LockTable.dfy`, `StoreProtocol.dfy`, `StoreRuns.dfy` | the disk store under concurrency: any number of threads and keys, one file operation at a time |
| `TreeStore.dfy` | the disk store as one caller sees it: a directory tree with faults that acts like a plain map |
| `CopyLoop.dfy` | the streaming copy to client and disk |
| `Proxy.dfy` | the request handler: lookup, revalidation, fetch, authentication retry, fallback, store |
| `HandlerStore.dfy` | the handler's plain map over the directory tree: lookup, store and remove agree, fault by fault |
| `ProxyRuns.dfy`, `RequestLaws.dfy` | what one request says to upstream and gets from the cache, read off its log |
| `Provenance.dfy`, `TrueSource.dfy`, `Staleness.dfy` | theorems about whole runs of the handler |

Code that changes things step by step is an object with methods (`DistRegistry`, `HtmlNode`,
`FileStore`, `HubRegistry`, `Handler`) or a loop over an array, proved against a function of the old
state; the theorems are about those functions. The concurrent store is a state machine whose steps
are single file operations.

## Findings

The proofs made these behaviours of the code visible. Each has a lemma that shows it.

- A HEAD answered "200, newer" is remembered before the refetch. When nothing is stored after it (a
  client HEAD is enough), an honest 304 later serves the old version: `Staleness.HeadThenStale`. The
  validator gets ahead of the stored version exactly then: `Staleness.RequestTells`.
- A client's `If-None-Match` goes into the HEAD when no validator is remembered, as after a restart. An honest
  304 about the client's version then confirms the older entry: `Staleness.BorrowedThenStale`. A fresh verdict
  is wrong exactly then: `Staleness.JudgeTells`.
- The cache policy hook of Docker hubs ignores the method, so a POST or PUT to a stored path named by digest is
  answered from the cache and never reaches upstream: `RequestLaws.DockerWriteIsServed`. Without such a hook
  it always does: `RequestLaws.WritesGoUpstream`.
- With a response hook, an upstream body that breaks off is stored as an empty body under a 200:
  `Provenance.BrokenBodyIsStoredEmpty`. Nothing else makes a stored body differ from the intended one:
  `Provenance.StoredBodyIsFull`.
- A Put that fails after its rename leaves the new body with old metadata. Then revalidation may ask
  another path than the one the body came from: `TrueSource.TornPutLosesTheSource`. A placed body names
  its source exactly when the Put went through or the old effective path happens to be the same:
  `TrueSource.SourceKeptExactly`.
- A Get between the rename of a Put and its end reports the time of the copy and no effective path:
  `StoreRuns.GetDuringPutIsMixed`. Only steps that change the key's entry can do this; a copy in
  progress does not: `StoreRuns.UndisturbedGetIsCoherent`.
- Remove leaves directories behind, so a path with a former entry below it cannot be stored until the empty
  directory itself is removed: `TreeStore.RemovedEntryStillBlocks`. A Remove at that path frees it exactly
  when nothing else lies below it: `TreeStore.RemovedEntryFreesExactly`. The handler never asks for that; it
  removes only where it has found an entry.
- A request with a query has its file below the file of the same path without one, so whichever is stored
  first makes the Put of the other fail: `RequestLocators.QueryBelowPath`, `TreeStore.StoredBlocksNested`.
  Only the root outside npm is apart. All such pairs: `RequestLocators.RequestsNest`.
- A Put that fails to set the time leaves the time of the copy, and the next HEAD is compared with it. With
  an honest upstream a later version is then taken for "not newer" exactly when it was last modified no later
  than the copy: `Staleness.TornEntryJudged`, `Staleness.TornTimeThenStale`.
- `/` and `/root` share one file, so a request for one can be served the body of the other:
  `CacheKeys.OneKeyPerCleanPath`, `Provenance.StoredIsServed`. The npm paths `x/-` and
  `x/-/package.json` are one locator, and a PyPI path and the same path with a slash behind it are one file:
  `RequestLocators.LocatorsShareFile`.
- Two hubs share files exactly when the directory of one is, or lies inside, that of the other:
  `CacheKeys.HubsShareExactly`. For names made of proper segments the names alone tell:
  `CacheKeys.HubNamesDecide`. Nothing keeps a hub name from containing a slash
  (`internal/config/validation.go:61-67`), and the files of a hub `x/y` are files of hub `x`:
  `CacheKeys.NestedHubsShareFiles`.
- A domain or Host value with several colons and no brackets loses what stands behind the last one exactly when
  that is an integer; so `fe80::1` and `fe80::2` are one host: `Hubs.ManyColons`.
- The root of a Go hub loses its slash when the query marker is stripped: `RequestLocators.StripRecovers`.
- A body named `x.meta` is the metadata file of `x`:
  `CacheKeys.BodyClashesWithMetadata`.
- A Composer or PyPI link leads back to its original address exactly when that address has a clean path
  other than `/`: `ComposerLinks.LinkRoundTrip`, `PyPI.FilesRoundTrip`.
- A Composer dist URL that is already on the proxy is registered as it stands, so the mirror path of its
  version leads the proxy to itself while the link leads to the real address:
  `ComposerMetadata.BothRoutesAgree`, `ComposerMetadata.RewrittenTwice`.

## Model

| member | source | states |
|---|---|---|
| `GoPath.CleanFixed` | internal/proxy/handler.go:679-685 | cleaning leaves a rooted path alone exactly when it is a rendering of proper segments |
| `GoPath.CleanIdempotent` | internal/proxy/handler.go:679-685 | cleaning twice is cleaning once |
| `GoPath.CleanStep` | internal/proxy/handler.go:679-685 | what one more path element does to the cleaned path: nothing, one segment less but never above the root, or one more |
| `CacheKeys.EntryPathBelowHub` | internal/cache/fs_store.go:249-271 | for every locator of a named hub the file lies strictly below the hub directory; "invalid cache path" is answered exactly when that directory is `/` |
| `CacheKeys.EntryPathIgnoresCleaning` | internal/cache/fs_store.go:249-271 | a locator and its cleaned form have the same file |
| `CacheKeys.SameFileOnDisk` | internal/cache/fs_store.go:249-271 | inside a hub, locators share a file exactly when their file segments agree |
| `CacheKeys.KeyIsFile` | internal/cache/fs_store.go:249-271 | for a hub named by one segment, body and metadata file of a locator lie below the base directory exactly at its key, and at its key with `.meta` behind it |
| `CacheKeys.SameKeySameFile` | internal/cache/fs_store.go:249-271 | two locators of such hubs share a file exactly when their keys agree |
| `CacheKeys.NestedHubsShareFiles` | internal/cache/fs_store.go:249-271 | the witness: every file of a hub `x/y` is one of hub `x` |
| `CacheKeys.HubsShareExactly` | internal/cache/fs_store.go:249-271 | for any rooted base and any two hub names, some locators of the hubs share a file exactly when the directory of one hub is, or lies inside, that of the other |
| `CacheKeys.SeparateHubsShareNothing` | internal/cache/fs_store.go:249-317 | hubs whose directories are apart share neither body nor metadata files, in any combination |
| `CacheKeys.HubNamesDecide` | internal/cache/fs_store.go:249-271 | for names made of proper segments, that is decided by the segments of the names |
| `CacheKeys.HubsNeverShareFiles` | internal/cache/fs_store.go:249-317 | in particular, hubs with different one-segment names share neither body nor metadata files |
| `CacheKeys.MetadataClash` | internal/cache/fs_store.go:315-317 | one entry's metadata file is another's body file exactly when the last segments differ by `.meta` |
| `CacheKeys.BodyClashesWithMetadata` | internal/cache/fs_store.go:315-317 | a body file doubles as somebody's metadata exactly when its last segment is a proper name followed by `.meta` |
| `RequestLocators.FileOfRequest` | internal/proxy/handler.go:600-626 | the file of a request, from its segments and query alone, through all locator rewrites, for clean paths and for those that a path hook ends in a slash |
| `RequestLocators.StripRecovers` | internal/proxy/handler.go:600-633 | stripping the marker from a locator path gives the locator path of the request without its query, except exactly at the root of a Go hub |
| `RequestLocators.LocatorsShareFile` | internal/proxy/handler.go:600-626 | two locators that the handler builds in a hub share a file exactly when they are equal, differ by a final slash, or are `/` and `/root` without query outside npm |
| `RequestLocators.RequestsShareFile` | internal/proxy/handler.go:600-633 | different (path, query) pairs of a hub share a file exactly in three cases: paths that differ by a final slash, `/` with `/root` without query outside npm, and for npm `p` ending in `/-` with `p/package.json` |
| `RequestLocators.GoPathIsClean` | internal/hubmodule/rewrite.go:52-70 | the Go rewrite of any path is its cleaned form, on every branch |
| `RequestLocators.PackagesBesideTarballs` | internal/hubmodule/rewrite.go:20-50 | an npm package document is the file of, above or below another package document or a tarball exactly when one path is or lies below the other package's `package.json` |
| `RequestLocators.RequestsNest` | internal/proxy/handler.go:600-626 | exactly when the file of one request is, or lies above, that of another, in every kind of hub and with every query |
| `RequestLocators.QueryBelowPath` | internal/proxy/handler.go:600-626 | the file of a path with a query lies strictly below that of the path without, exactly but for the root outside npm |
| `Docker.SplitDockerRepoPath` | internal/hubmodule/docker/hooks.go:94-121 | the scanning loop succeeds exactly when the first special segment is a keyword that is not the first one, and cuts there |
| `Docker.SplitRepoExact` | internal/hubmodule/docker/hooks.go:94-121 | `/v2/`, repository and rest put together are the input |
| `Docker.SplitRepoOf` | internal/hubmodule/docker/hooks.go:94-121 | any plain repository segments followed by a keyword are split right there |
| `Docker.NormalizeIdempotent` | internal/hubmodule/docker/hooks.go:18-27 | normalising a normalised path changes nothing |
| `Docker.NormalizeExactly` | internal/hubmodule/docker/hooks.go:18-27 | a path changes exactly on Docker Hub and when it names a repository of one segment other than `library`, and then moves below `library` |
| `Docker.FallbackExactly` | internal/hubmodule/docker/hooks.go:79-92 | a path has a fallback exactly on registry.k8s.io and when it names a manifest of a repository of one segment, and then it is that of the doubled one |
| `Docker.KnownHosts` | internal/hubmodule/docker/hooks.go:60-77 | which hosts count as Docker Hub and registry.k8s.io, in any case and with any port |
| `Docker.PolicyExactly` | internal/hubmodule/docker/hooks.go:29-47 | caching is refused exactly for the three root texts and below a segment starting with `_catalog`; else revalidation is waived exactly for `blobs` or `manifests` followed by a segment starting with `sha256:` |
| `Docker.ReferencePolicy` | internal/hubmodule/docker/hooks.go:29-47 | so a tag is revalidated and a digest is not, whatever the repository |
| `Docker.NoSecondFallback` | internal/hubmodule/docker/hooks.go:79-88 | a fallback has no fallback, and its repository is the doubled one |
| `Docker.FallbackInjective` | internal/hubmodule/docker/hooks.go:79-88 | different paths have different fallbacks |
| `Docker.FallbackKeepsPolicy` | internal/hubmodule/docker/hooks.go:29-47 | original and fallback are cached under the same policy |
| `Auth.ParseAuthParams` | internal/proxy/handler.go:968-985 | the loop fills the map that reading the comma-separated parts in order defines |
| `Auth.ParseBearerChallenge` | internal/proxy/handler.go:945-966 | the first header value that is a Bearer challenge with a realm wins, whatever stands before and after it |
| `Auth.ParsePrinted` | internal/proxy/handler.go:968-985 | a printed list, its names in any case and its values quoted or not, is read back as those parameters under lower-cased names, later ones winning |
| `Auth.ParseInvertsPrint` | internal/proxy/handler.go:968-985 | with names that differ in more than case, parsing the printed list returns exactly that map |
| `Auth.PrintedChallenge` | internal/proxy/handler.go:945-966 | a printed challenge, its scheme in any case, comes back with its realm, service and scope, and is none without a realm |
| `Auth.SurvivesExactly` | internal/proxy/handler.go:968-985 | a parameter survives printing and parsing exactly when its value has no comma, no quote at an end and, written without quotes, no space at an end |
| `ComposerLinks.LinkShape` | internal/hubmodule/composer/hooks.go:340-378 | the rewritten text is a URL that parses back to scheme `https`, the proxy's host and the dist path |
| `ComposerLinks.LinkRoundTrip` | internal/hubmodule/composer/hooks.go:340-437 | a dist URL read back from its link is itself exactly when its path is clean and not `/` |
| `ComposerLinks.LinkResolves` | internal/hubmodule/composer/hooks.go:74-90 | a client that follows the link reaches the original URL, whatever the mirror registry holds |
| `ComposerLinks.OnlyAbsoluteMoves` | internal/hubmodule/composer/hooks.go:340-357 | only a URL with scheme and host that is not on the proxy is rewritten |
| `ComposerLinks.LinkSettles` | internal/hubmodule/composer/hooks.go:340-378 | rewriting the rewritten link changes nothing exactly when it still lies below `/dist/` |
| `ComposerLinks.LinkBelowDist` | internal/hubmodule/composer/hooks.go:340-378 | links of URLs with clean paths always do |
| `ComposerLinks.RootFieldMoved` | internal/hubmodule/composer/hooks.go:462-497 | a web URL in a URL field of packages.json moves to the proxy, path cleaned and query kept, exactly when its host is packagist's and not the proxy's own |
| `ComposerLinks.RootFieldSettles` | internal/hubmodule/composer/hooks.go:462-497 | a second pass over such a field changes nothing |
| `ComposerLinks.TemplateMoved` | internal/hubmodule/composer/hooks.go:443-497 | a template with placeholders below packagist's address, which is no parseable URL, moves as well |
| `ComposerLinks.MirrorParsed` | internal/hubmodule/composer/hooks.go:515-544 | the path that a client builds from the mirror template is parsed into its package, reference and type |
| `ComposerLinks.MirrorRoundTrip` | internal/hubmodule/composer/hooks.go:499-513 | what is registered for a package version is what its mirror path resolves to |
| `ComposerLinks.KeyIgnoresCase` | internal/hubmodule/composer/hooks.go:546-555 | the registry key does not depend on the case of the package name |
| `ComposerMetadata.KeyInjective` | internal/hubmodule/composer/hooks.go:546-555 | without a separator in its parts, keys agree exactly when all normalised parts agree |
| `ComposerMetadata.KeyUsable` | internal/hubmodule/composer/hooks.go:546-555 | a key is usable exactly when none of its parts is blank |
| `ComposerMetadata.DistRegistry.Remember` | internal/hubmodule/composer/hooks.go:24-32 | one key is written, and nothing for an unusable key or blank URL; what this makes of lookups is `ComposerLinks.MirrorRoundTrip` |
| `ComposerMetadata.DistRegistry.Find` | internal/hubmodule/composer/hooks.go:34-46 | succeeds exactly for a usable key with a non-blank URL |
| `ComposerMetadata.DistRegistry.Reset` | internal/hubmodule/composer/hooks.go:48-52 | the registry is empty afterwards |
| `ComposerMetadata.RewriteVersion` | internal/hubmodule/composer/hooks.go:307-338 | one version entry becomes its rewritten form, reports a change exactly when it changed, and adds at most its own item to the registry |
| `ComposerMetadata.OnlyNameAndUrlChange` | internal/hubmodule/composer/hooks.go:307-338 | a rewritten version differs at most in a blank name and in `dist.url` |
| `ComposerMetadata.SecondPass` | internal/hubmodule/composer/hooks.go:307-338 | exactly when a second pass over a rewritten version reports a change |
| `ComposerMetadata.SecondPassOverDocument` | internal/hubmodule/composer/hooks.go:222-257 | a second pass over a whole rewritten document reports a change exactly when some original version leaves something to rewrite |
| `ComposerMetadata.SecondPassSettles` | internal/hubmodule/composer/hooks.go:222-257 | it reports none when all packages have names and every dist URL, on the proxy or not, has a clean path |
| `ComposerMetadata.RewriteVersionSlice` | internal/hubmodule/composer/hooks.go:287-295 | every array element is rewritten in place, and the registry gets exactly the items of the old elements |
| `ComposerMetadata.RewriteVersionMap` | internal/hubmodule/composer/hooks.go:297-305 | the same for a map visited in an arbitrary order, which the result does not show |
| `ComposerMetadata.RewritePackagesPayload` | internal/hubmodule/composer/hooks.go:259-285 | the payload of a package is rewritten by its shape; unknown shapes stay |
| `ComposerMetadata.RewriteMetadata` | internal/hubmodule/composer/hooks.go:222-257 | all packages are rewritten in an arbitrary order with one result; a blank domain changes nothing |
| `ComposerMetadata.MergeIsDetermined` | internal/hubmodule/composer/hooks.go:222-257 | with distinct keys the registry is the same for every order of writing |
| `ComposerMetadata.BothRoutesAgree` | internal/hubmodule/composer/hooks.go:222-338 | after the rewriting of any package map with distinct keys, the mirror path of a version resolves to its original URL, and the rewritten link does exactly when that URL was not on the proxy already |
| `ComposerMetadata.RewrittenTwice` | internal/hubmodule/composer/hooks.go:340-357 | a dist URL that is itself a link stays and resolves to the URL it was made from |
| `PyPI.FilesRoundTrip` | internal/hubmodule/pypi/hooks.go:51-71 | a rewritten address leads back to the original exactly when the path is clean and not `/`, also for addresses already on the proxy |
| `PyPI.FollowedLink` | internal/hubmodule/pypi/hooks.go:179-196 | a client that follows a rewritten link reaches the original scheme, host, path and query |
| `PyPI.RewriteHtmlAttributes` | internal/hubmodule/pypi/hooks.go:168-177 | the attributes of a node are rewritten in place, one by one |
| `PyPI.RewriteHtmlNode` | internal/hubmodule/pypi/hooks.go:159-166 | the whole tree below a node is rewritten in place |
| `PyPI.AttrExactly` | internal/hubmodule/pypi/hooks.go:168-196 | exactly the web addresses of files and their metadata are touched, and only those with scheme and host move |
| `PyPI.LinksRewritten` | internal/hubmodule/pypi/hooks.go:159-177 | the links of the new page are the rewritten links of the old one, in order |
| `PyPI.SkeletonKept` | internal/hubmodule/pypi/hooks.go:159-177 | shape, tags, texts, attribute keys and all values but link values stay |
| `PyPI.PageLinksResolve` | internal/hubmodule/pypi/hooks.go:51-71 | every link of a rewritten page, followed, reaches the address the page held |
| `PyPI.NormalizedIsHookPath` | internal/hubmodule/pypi/hooks.go:24-49 | what the path hook makes of a cleaned path is a path of which the locator theorems speak |
| `PyPI.NormalizeExactly` | internal/hubmodule/pypi/hooks.go:24-49 | by the segments of a clean path: below `simple` it gains a final slash; the root, paths below `files`, distribution files and paths with a leading underscore stay; all others become `/simple`, path, `/` |
| `Hubs.HubRegistry.Load` | internal/server/hub_registry.go:41-74 | loading succeeds exactly when all hubs are valid and their normalised domains are non-empty and different; the order is kept |
| `Hubs.HubRegistry.Lookup` | internal/server/hub_registry.go:77-89 | a hub is found exactly when one has this host, and then that one |
| `Hubs.HostIgnoresCaseAndPort` | internal/server/hub_registry.go:146-172 | a plain host name reaches its hub in any case, with any port and with a final dot |
| `Hubs.HostIgnoresSpace` | internal/server/hub_registry.go:146-172 | and with any space around it |
| `Hubs.ManyColons` | internal/server/hub_registry.go:146-172 | behind the last of several colons, exactly an integer counts as a port |
| `CopyLoop.Copy` | internal/cache/fs_store.go:284-309 | the loop passes exactly through the points of its turns, each byte going to the client before the disk; after a complete copy, and after a read error, all three places are equal; the count is what is on disk |
| `CopyLoop.PointsOrdered` | internal/cache/fs_store.go:284-309 | at every point disk is a prefix of client and client of upstream, and no place ever loses a byte |
| `CopyLoop.CompleteExactly` | internal/cache/fs_store.go:284-309 | a copy is complete exactly when every turn up to the end of the stream is uncancelled, fully taken and without read error |
| `LockTable.StepKeepsInv` | internal/cache/fs_store.go:226-247 | every critical section keeps: counts equal users, live locks only for used keys, one holder per lock |
| `LockTable.MutualExclusion` | internal/cache/fs_store.go:226-247 | in every reachable state at most one thread is inside the critical section of a key |
| `LockTable.TableHoldsUsedKeys` | internal/cache/fs_store.go:226-247 | a key is in the table exactly while some thread uses it, and its count is the number of those threads |
| `LockTable.DeletedLocksAreUnused` | internal/cache/fs_store.go:226-247 | nobody waits on or holds a lock that left the table |
| `LockTable.QuiescentTableIsEmpty` | internal/cache/fs_store.go:226-247 | when all threads are done the table is empty |
| `LockTable.SomeThreadCanMove` | internal/cache/fs_store.go:226-247 | while a thread is inside, it or the holder of its lock can move |
| `StoreProtocol.StepKeepsInv` | internal/cache/fs_store.go:57-179 | every single file operation, failure, lock operation and step of a Get keeps the store's invariant |
| `StoreProtocol.WorkGoesOn` | internal/cache/fs_store.go:103-179 | a started Put or Remove, or the holder it waits for, always has a next step that is not a failure |
| `StoreRuns.OpenedBodyIsWhole` | internal/cache/fs_store.go:57-159 | in every run, what a Get has opened is the complete body of one Put called for its key, and stays so whatever happens later |
| `StoreRuns.DiskIsOfOnePut` | internal/cache/fs_store.go:103-224 | when no Put of a key is between its rename and its end and none was torn since, body, time and effective path on disk are all those of one Put |
| `StoreRuns.FinishedPutIsThere` | internal/cache/fs_store.go:103-159 | in every run, a thread still inside its key at the end of a Put that went through finds on disk exactly the body, time and effective path it was called with |
| `StoreRuns.FinishedRemoveIsGone` | internal/cache/fs_store.go:161-179 | in every run, a thread still inside its key at the end of a Remove that went through finds neither body nor metadata |
| `StoreRuns.RemovedIsMissed` | internal/cache/fs_store.go:57-179 | from then on, whatever else happens, until a Put of the key gets its body in place both stay away and every Get that begins misses |
| `StoreRuns.UndisturbedGetIsCoherent` | internal/cache/fs_store.go:57-101 | a Get whose three steps see no change of its key's entry in between returns size, time, path and body of one Put, also while another Put of the key waits, copies or fails |
| `StoreRuns.GetDuringPutIsMixed` | internal/cache/fs_store.go:57-101 | a Get between a Put's rename and its end returns the new body with the time of the copy and no effective path |
| `TreeStore.FileStore.PlaceBody` | internal/cache/fs_store.go:103-138 | a Put gets its body in place exactly when nothing is in the way, the body is complete and no file operation fails; else the map is unchanged and no temporary file stays |
| `TreeStore.FileStore.FinishPut` | internal/cache/fs_store.go:140-149 | time and metadata after the rename, and what stays when either fails |
| `TreeStore.FileStore.WriteMetadata` | internal/cache/fs_store.go:193-224 | the effective path of one entry is replaced or, on any failure, left as it was |
| `TreeStore.FileStore.Put` | internal/cache/fs_store.go:103-159 | exactly when a Put succeeds and what each kind of failure leaves; only its own key changes |
| `TreeStore.FileStore.Get` | internal/cache/fs_store.go:57-101 | a Get answers from the plain map; missing files, directories and paths below files are "not found" |
| `TreeStore.FileStore.Remove` | internal/cache/fs_store.go:161-179 | exactly when a Remove succeeds; only its own key goes |
| `TreeStore.StoredPathsNeverNest` | internal/cache/fs_store.go:103-138 | no stored path is a proper ancestor of another stored path |
| `CacheKeys.OneKeyPerCleanPath` | internal/cache/fs_store.go:249-271 | clean paths name one entry exactly when they are equal, but for `/` and `/root` |
| `TreeStore.RemovedEntryStillBlocks` | internal/cache/fs_store.go:161-179 | right after the removal of an entry, a path above it cannot be stored |
| `TreeStore.EmptyDirectoryFrees` | internal/cache/fs_store.go:161-179 | a directory can be removed exactly when nothing is left below it, and then its path can be stored |
| `TreeStore.RemovedEntryFreesExactly` | internal/cache/fs_store.go:161-179 | after the removal of an entry, a Remove at a path above it frees that path exactly when the entry and its metadata were all that lay below |
| `TreeStore.StoredBlocksNested` | internal/cache/fs_store.go:103-138 | a stored entry keeps every path above and below it from being stored |
| `Proxy.Handler.Serve` | internal/proxy/handler.go:84-156 | a request, step by step on the fields, is the function `Handle` of the old state; what that does is `RequestLaws.ServedExactly`, `RequestLaws.RequestLog` and `Provenance.FetchStoresExactly` |
| `Proxy.Handler.Revalidate` | internal/proxy/handler.go:779-840 | revalidation on the fields is the function `IsCacheFresh`; what that asks and leaves is `RequestLaws.RequestLog` and `RequestLaws.RevalidationLeaves` |
| `Provenance.DecideEffect` | internal/proxy/handler.go:779-840 | revalidating changes nothing outside the request's file and locator, and removes that entry only after a 404 |
| `Proxy.Handler.RetryOnAuthFailure` | internal/proxy/handler.go:409-448 | the second attempt on the fields is the function `RetryAuth`; its result is `ProxyRuns.RetryExactly` |
| `Proxy.Handler.RetryManifestFallback` | internal/proxy/handler.go:852-885 | the fallback on the fields is the function `RetryFallback`; its result is `RequestLaws.FetchAsksExactly` |
| `Proxy.Handler.StoreAndStream` | internal/proxy/handler.go:375-407 | storing on the fields is the function `CacheAndStream`; its results are `Provenance.FetchStoresExactly` and `HandlerStore.Put` |
| `HandlerStore.Put` | internal/proxy/handler.go:375-407 | a Put on the directory tree does to what the tree stores exactly what `CacheAndStream` does to the handler's map, with the ending, clock and left-over metadata that the tree's faults give |
| `HandlerStore.Lookup` | internal/proxy/handler.go:114-128 | a Get on the tree finds what the handler's lookup finds, errors being misses |
| `HandlerStore.Remove` | internal/proxy/handler.go:831-836 | a Remove on the tree takes the file's entry from the map exactly when its body could be removed |
| `TrueSource.PlacedEntry` | internal/proxy/handler.go:398-403 | whatever a Put puts in place carries the fetch's effective path exactly if it went through, else the old one |
| `Proxy.Handler.StreamUpstream` | internal/proxy/handler.go:241-289 | fetching on the fields is the function `FetchAndStream`; its result is `Provenance.FetchStoresExactly` |
| `ProxyRuns.BoundedWork` | internal/proxy/handler.go:84-156 | whatever upstream answers, a request makes at most 6 upstream and 3 token requests with credentials, at most 3 and 0 without |
| `ProxyRuns.WorkBoundIsTight` | internal/proxy/handler.go:409-448 | the bounds with credentials are reached |
| `ProxyRuns.RetryExactly` | internal/proxy/handler.go:409-448 | exactly when there is a second attempt and when it carries a token, which answer the request goes on with, and that a challenge without a token loses it |
| `ProxyRuns.FetchIsLogged` | internal/proxy/handler.go:241-289 | a 200 that a fetch goes on with came from the request's own path or, exactly when the effective path says so, from its fallback |
| `RequestLaws.FetchAsksExactly` | internal/proxy/handler.go:241-272 | a fetch asks a second address exactly when the answer of the first is a 404 and its path has a fallback; otherwise that answer stands without an effective path |
| `RequestLaws.ServedExactly` | internal/proxy/handler.go:114-156 | the cache answers exactly when the policy allows it, the file is stored, and no revalidation is asked for, the TTL holds, or upstream confirms the entry; and it answers with that entry |
| `RequestLaws.RevalidationLeaves` | internal/proxy/handler.go:818-839 | the store loses the entry after a 404 only, which also forgets its validator; a 200 is remembered by digest before etag; nothing else changes either |
| `RequestLaws.RequestLog` | internal/proxy/handler.go:84-240 | every exchange of a request: HEADs that revalidate, with the remembered validator before the client's condition; then one HEAD exactly for a client's HEAD that wants it, naming what is remembered by then, or fetches with the client's own method, query and condition |
| `RequestLaws.ForbiddenIsFetched` | internal/proxy/handler.go:114-128 | under a policy that forbids caching nothing is answered from the cache and all that is said is the fetch |
| `RequestLaws.WritesGoUpstream` | internal/proxy/handler.go:752-773 | without a policy hook a request that is neither GET nor HEAD goes upstream and changes neither store nor validators |
| `RequestLaws.DockerWriteIsServed` | internal/hubmodule/docker/hooks.go:29-47 | in a Docker hub it is answered from the cache, for a stored path named by digest |
| `Provenance.RequestProvenance` | internal/proxy/handler.go:84-156 | a request changes nothing outside its file and locator; there an entry stays, is stored from the last answer, or goes after a 404 |
| `Provenance.FetchStoresExactly` | internal/proxy/handler.go:274-407 | a fetch stores, and remembers a validator, exactly when a GET under a storing policy ends in a 200 that is read, sent and put in full; what it stores, what a Put that fails late leaves, and what the client gets |
| `Provenance.StoredIsServed` | internal/proxy/handler.go:114-156 | what one request stored, the next one for the same file gets from the cache without an upstream request, while no revalidation is asked for or within the TTL |
| `Provenance.StoreProvenance` | internal/proxy/handler.go:274-288 | after any run, every entry was stored by a client GET for a locator of its file, from a 200, under a policy that allows storing, and not altered since |
| `Provenance.StoredForItself` | internal/proxy/handler.go:274-288 | and by a GET for the very locator that finds it, when no other locator of the run has its file |
| `Provenance.StoredBodyIsFull` | internal/proxy/handler.go:291-328 | the stored body is the rewritten one, or the original if rewriting failed; it is empty instead exactly when a hook met a body that broke off |
| `Provenance.BrokenBodyIsStoredEmpty` | internal/proxy/handler.go:295-299 | a hook meets an upstream body that breaks off: an empty body is stored under a 200 |
| `Provenance.GoneAfterNotFound` | internal/proxy/handler.go:831-836 | after a 404 on revalidation entry and validator are gone, unless the following fetch stores anew |
| `Provenance.EntriesVanishBy404` | internal/proxy/handler.go:831-836 | an entry that is gone went through a 404 on a revalidation for its file |
| `TrueSource.RequestAsks` | internal/proxy/handler.go:842-850 | every revalidation of a request goes to one address, the entry's effective path or the request's own |
| `TrueSource.SourceKeptExactly` | internal/proxy/handler.go:263-288 | a body that a query-free Docker fetch puts in place names its own source exactly when the Put went through or the old effective path is the same |
| `TrueSource.SourceOfEntry` | internal/proxy/handler.go:263-288 | after every run of such requests, an entry names the address that the event which stored it asked last, exactly under that condition at that event |
| `TrueSource.RevalidationAsksTheSource` | internal/proxy/handler.go:842-885 | then its effective path is empty or the fallback of its own path, and every later revalidation asks the address whose 200 to a client GET brought the stored body |
| `TrueSource.TornPutLosesTheSource` | internal/proxy/handler.go:398-403 | with a torn Put it does not: the body of the fallback without its path |
| `Staleness.JudgeTells` | internal/proxy/handler.go:818-839 | an entry judged fresh is the version current at the answer, exactly unless a 304 answers a condition that only the client named; the validator gets ahead exactly on "200, newer" |
| `Staleness.RequestTells` | internal/proxy/handler.go:129-155 | a request keeps "validator version <= stored version" exactly when a "200, newer" answer is followed by a refetch that stores |
| `Staleness.HitTells` | internal/proxy/handler.go:129-150 | a hit under revalidation became current within the last TTL or, unless it goes by the client's own condition, was current at this request's HEAD |
| `Staleness.BoundedStaleness` | internal/cache/writer.go:45-57 | the same after every run that meets the premises, with restarts and requests for other locators in between |
| `Staleness.HeadThenStale` | internal/proxy/handler.go:825-830 | without the premise it fails: a GET, a client HEAD, another GET from an empty handler, all answered honestly, and the old version is served |
| `Staleness.BorrowedThenStale` | internal/proxy/handler.go:911-928 | a GET, a restart, and a GET once there is a newer version: the old one is served exactly when the client names the newer one's validator |
| `Staleness.TornEntryJudged` | internal/proxy/handler.go:818-839 | over an entry whose Put failed at its time, an upstream that serves the newer version is judged unchanged exactly when that version was last modified no later than the copy was made |
| `Staleness.TornTimeThenStale` | internal/cache/fs_store.go:140-149 | without the premise on Puts the bound fails too: a torn GET, then another, all answered honestly, and the old version is served, exactly under that condition |

## Premises

- Staleness: versions have unique validators and strictly increasing Last-Modified times no later than
  the moment they became current; every 200 carries both, and both paths of a fallback show the same
  resource; a 304 only answers a request that names the current validator; clients send no conditional
  header but `If-None-Match`, and for the second half of the bound the last client does so only while a
  validator is remembered (`BorrowedThenStale`); requests for a locator do not overlap; a "200, newer" HEAD is followed by a
  refetch that stores (`HeadThenStale`); no Put fails between its rename and its time (`TornTimeThenStale`). A route's rewrite keeps
  Last-Modified and keeps or drops the validator, and on a route with a hook no body breaks off. No
  other locator of the run has the locator's file, as holds but for `/` and `/root`.
- Revalidation targets: Docker requests without a query, one locator for the file.
- Disk store and handler: hub names are one path segment. Which other names stay apart:
  `CacheKeys.HubsShareExactly`.
- Disk store: no path segment ends in `.meta` or starts with `.cache-`. The concurrent model has one
  file per lock key, as for clean paths other than `/` and `/root`.
- Request identity: SHA-256 has no collisions and no path has a `__qs` segment of its own.
- Addresses: no user info, fragment on dist URLs, percent escapes or bracketed hosts.

## Left out

- Auth.ParseInvertsPrint: only ASCII letters change case in `strings.ToLower`, here and elsewhere.
- ComposerMetadata.RewriteMetadata: starts from decoded packages; JSON text and the top-level fields other than `packages`, which the code drops, are not modelled; nested maps are values that are reassigned, so aliasing between two entries is not visible.
- PyPI.RewriteHtmlNode: children are a sequence instead of sibling pointers, the node kinds are element or not, and HTML text is not parsed or printed.
- StoreRuns.OpenedBodyIsWhole: lock keys stand for files; two unclean locators of one file, which use different locks, are not modelled.
- Proxy.Handler.Serve: requests follow one another; `ResolveUpstream` hooks are represented by the path and query they are given; hooks return the status unchanged, as those of this repository do.
- Proxy.Handler.StoreAndStream: the store is a plain map; `HandlerStore` ties it to the directory tree, one request after another.
- Hubs.HubRegistry.Load: whether a hub's module and addresses resolve is a flag of the configured hub.
- Staleness.HitTells: says nothing about entries whose policy does not ask for revalidation.
- The query of a Composer dist request: the code drops it from the locator but keeps it for upstream, so two dist URLs that differ only in their query share an entry; only the resolution is proved here.
- The map updates of `rewriteComposerRootBody`, its mirror entry, and the `files` loop over PyPI JSON: each applies a link function that is proved here to one field after another.
- Quoting of validators: they are opaque texts.
- HTTP transport, headers, content types, manifest sniffing, token decoding, outbound proxies: an answer is a status, validators, challenges and a body chosen by the environment.
- Configuration, logging, diagnostics, the cache policies of hubs other than Docker: settled by reading a branch or two.
- Symbolic links, permissions and Windows paths: a file operation succeeds or fails.
