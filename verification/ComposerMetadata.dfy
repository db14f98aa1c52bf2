/** Composer package metadata: every version's dist URL is pointed at the proxy in
    place, and the original URL is remembered in the shared registry. */
module ComposerMetadata {
  import opened Text
  import opened GoPath
  import opened Urls
  import opened ComposerLinks

  datatype Json = JString(text: string) | JObject(fields: Fields) | JOther(id: int)

  type Fields = map<string, Json>

  /** One decoded version entry; JSON null decodes to no entry. */
  datatype Version = NoVersion | Version(fields: Fields)

  /** One package of the metadata document, by the shape its JSON has. */
  datatype Payload = VersionList(versions: seq<Version>) | VersionMap(byName: map<string, Version>) | Opaque(raw: Json)

  type Packages = map<string, Payload>

  // ---- One version --------------------------------------------------------

  function StringField(f: Fields, key: string): string {
    if key in f && f[key].JString? then f[key].text else ""
  }

  predicate NeedsName(f: Fields, pkg: string) {
    pkg != "" && TrimSpace(StringField(f, "name")) == ""
  }

  predicate HasDist(f: Fields) {
    "dist" in f && f["dist"].JObject? && StringField(f["dist"].fields, "url") != ""
  }

  function DistUrlOf(f: Fields): string
    requires HasDist(f)
  {
    StringField(f["dist"].fields, "url")
  }

  function Named(f: Fields, pkg: string): Fields {
    if NeedsName(f, pkg) then f["name" := JString(pkg)] else f
  }

  function Relinked(f: Fields, domain: string): Fields {
    if HasDist(f) && RewriteDistUrl(DistUrlOf(f), domain) != DistUrlOf(f) then
      f["dist" := JObject(f["dist"].fields["url" := JString(RewriteDistUrl(DistUrlOf(f), domain))])]
    else f
  }

  function RewriteFields(f: Fields, domain: string, pkg: string): Fields {
    Relinked(Named(f, pkg), TrimSpace(domain))
  }

  predicate Changes(f: Fields, domain: string, pkg: string) {
    NeedsName(f, pkg) || (HasDist(f) && RewriteDistUrl(DistUrlOf(f), TrimSpace(domain)) != DistUrlOf(f))
  }

  function RewriteVersionValue(v: Version, domain: string, pkg: string): Version {
    if v.NoVersion? then v else Version(RewriteFields(v.fields, domain, pkg))
  }

  predicate VersionChanges(v: Version, domain: string, pkg: string) {
    v.Version? && Changes(v.fields, domain, pkg)
  }

  lemma UnchangedVersion(v: Version, domain: string, pkg: string)
    requires !VersionChanges(v, domain, pkg)
    ensures RewriteVersionValue(v, domain, pkg) == v
  {
  }

  /** A rewritten version differs at most in a blank name and in the URL of its dist. */
  lemma OnlyNameAndUrlChange(f: Fields, domain: string, pkg: string)
    ensures var g := RewriteFields(f, domain, pkg);
            (forall k :: k != "name" && k != "dist" ==> (k in g <==> k in f) && (k in f ==> g[k] == f[k])) &&
            (if NeedsName(f, pkg) then "name" in g && g["name"] == JString(pkg)
             else ("name" in g <==> "name" in f) && ("name" in f ==> g["name"] == f["name"]))
    ensures var g := RewriteFields(f, domain, pkg);
            if HasDist(f) then
              "dist" in g && g["dist"].JObject? &&
              g["dist"].fields == f["dist"].fields["url" := JString(RewriteDistUrl(DistUrlOf(f), TrimSpace(domain)))]
            else ("dist" in g <==> "dist" in f) && ("dist" in f ==> g["dist"] == f["dist"])
  {
    hide RewriteDistUrl, TrimSpace;
    assert HasDist(Named(f, pkg)) == HasDist(f);
    if HasDist(f) {
      var d := f["dist"].fields;
      assert d["url" := JString(DistUrlOf(f))] == d;
    }
  }

  /** A second pass over a rewritten version reports a change exactly when the package
      name is blank but not empty, or the link itself is rewritten again. */
  lemma SecondPass(f: Fields, domain: string, pkg: string)
    ensures Changes(RewriteFields(f, domain, pkg), domain, pkg)
            <==> (pkg != "" && TrimSpace(pkg) == "" && NeedsName(f, pkg)) ||
                 (HasDist(f) &&
                  var link := RewriteDistUrl(DistUrlOf(f), TrimSpace(domain));
                  link != "" && RewriteDistUrl(link, TrimSpace(domain)) != link)
  {
    OnlyNameAndUrlChange(f, domain, pkg);
    var g := RewriteFields(f, domain, pkg);
    assert StringField(g, "name") == if NeedsName(f, pkg) then pkg else StringField(f, "name");
  }

  /** What makes a second pass over a rewritten version report a change. */
  predicate ChangesTwice(v: Version, domain: string, pkg: string) {
    v.Version? &&
    ((pkg != "" && TrimSpace(pkg) == "" && NeedsName(v.fields, pkg)) ||
     (HasDist(v.fields) &&
      var link := RewriteDistUrl(DistUrlOf(v.fields), TrimSpace(domain));
      link != "" && RewriteDistUrl(link, TrimSpace(domain)) != link))
  }

  /** The version has no dist URL, or a plain one with a clean path, on the proxy or not. */
  ghost predicate CleanDist(v: Version) {
    v.Version? && HasDist(v.fields) ==> exists u: Url :: DistUrlOf(v.fields) == Print(u) && DistUrl(u) && IsClean(u.path)
  }

  /** With a real package name such a version settles at once. */
  lemma CleanDistSettles(v: Version, domain: string, pkg: string)
    requires CleanDist(v) && IsPlainHost(domain) && TrimSpace(pkg) != ""
    ensures !ChangesTwice(v, domain, pkg)
  {
    PathTextEdges(domain);
    TrimSpaceIdentity(domain);
    if v.Version? && HasDist(v.fields) {
      var u: Url :| DistUrlOf(v.fields) == Print(u) && DistUrl(u) && IsClean(u.path);
      if IsProxied(u, domain) {
        ProxiedStays(u, domain);
      } else {
        LinkBelowDist(u);
        LinkSettles(u, domain);
      }
    }
  }

  lemma ProxiedStays(u: Url, domain: string)
    requires DistUrl(u) && IsProxied(u, domain)
    ensures RewriteDistUrl(Print(u), domain) == Print(u)
  {
    PrintTrimmed(u);
    ParsePrint(u);
  }

  // ---- The registry -----------------------------------------------------------

  datatype Item = Item(key: string, url: string)

  /** What one version adds to the registry: at most one item. */
  function Contribution(v: Version, domain: string, pkg: string): set<Item> {
    if v.NoVersion? || !HasDist(v.fields) then {}
    else
      var d := v.fields["dist"].fields;
      var reference, distType := StringField(d, "reference"), StringField(d, "type");
      var key := DistKey(TrimSpace(domain), pkg, reference, distType);
      if pkg != "" && TrimSpace(domain) != "" && reference != "" && distType != "" && key != "" && TrimSpace(DistUrlOf(v.fields)) != ""
      then {Item(key, DistUrlOf(v.fields))} else {}
  }

  ghost function Contributions(vs: set<Version>, domain: string, pkg: string): set<Item> {
    set v, c | v in vs && c in Contribution(v, domain, pkg) :: c
  }

  /** The registry after a set of items was written to it in some order. */
  ghost predicate Merged(before: Registry, items: set<Item>, after: Registry) {
    (forall k :: k in after ==> Written(items, k, after[k]) || (k in before && after[k] == before[k] && !Touched(items, k))) &&
    (forall k :: k in before || Touched(items, k) ==> k in after)
  }

  ghost predicate Written(items: set<Item>, key: string, url: string) {
    Item(key, url) in items
  }

  ghost predicate Touched(items: set<Item>, key: string) {
    exists url :: Written(items, key, url)
  }

  /** No key is offered with two URLs. */
  ghost predicate DistinctKeys(items: set<Item>) {
    forall a, b :: a in items && b in items && a.key == b.key ==> a == b
  }

  lemma MergedNothing(r: Registry)
    ensures Merged(r, {}, r)
  {
  }

  lemma MergedInSequence(a: Registry, first: set<Item>, b: Registry, second: set<Item>, c: Registry)
    requires Merged(a, first, b) && Merged(b, second, c)
    ensures Merged(a, first + second, c)
  {
    forall k | k in c
      ensures Written(first + second, k, c[k]) || (k in a && c[k] == a[k] && !Touched(first + second, k))
    {
      if Written(second, k, c[k]) {
        assert Written(first + second, k, c[k]);
      } else if Written(first, k, b[k]) {
        assert Written(first + second, k, c[k]);
      } else {
        assert forall url :: Written(first + second, k, url) ==> Written(first, k, url) || Written(second, k, url);
      }
    }
    forall k | k in a || Touched(first + second, k) ensures k in c {
      if Touched(first + second, k) {
        var url :| Written(first + second, k, url);
        assert Written(first, k, url) || Written(second, k, url);
      }
    }
  }

  /** With distinct keys, the order in which the items were written cannot be seen. */
  lemma MergeIsDetermined(before: Registry, items: set<Item>, after1: Registry, after2: Registry)
    requires DistinctKeys(items) && Merged(before, items, after1) && Merged(before, items, after2)
    ensures after1 == after2
  {
    forall k | k in after1 ensures k in after2 && after1[k] == after2[k] {
      SameEntry(before, items, after1, after2, k);
    }
    forall k | k in after2 ensures k in after1 {
      SameEntry(before, items, after2, after1, k);
    }
  }

  lemma SameEntry(before: Registry, items: set<Item>, a: Registry, b: Registry, k: string)
    requires DistinctKeys(items) && Merged(before, items, a) && Merged(before, items, b) && k in a
    ensures k in b && a[k] == b[k]
  {
    if Written(items, k, a[k]) {
      assert Touched(items, k);
      assert k in b;
      if Written(items, k, b[k]) {
        assert Item(k, a[k]) == Item(k, b[k]);
      }
    }
  }

  class DistRegistry {
    var items: Registry

    constructor ()
      ensures items == map[]
    {
      items := map[];
    }

    method Remember(domain: string, pkg: string, reference: string, distType: string, upstream: string)
      modifies this
      ensures var key := DistKey(domain, pkg, reference, distType);
              items == if key == "" || TrimSpace(upstream) == "" then old(items) else old(items)[key := upstream]
    {
      var key := DistKey(domain, pkg, reference, distType);
      if key == "" || TrimSpace(upstream) == "" {
        return;
      }
      items := items[key := upstream];
    }

    method Find(domain: string, pkg: string, reference: string, distType: string) returns (url: string, ok: bool)
      ensures url == Lookup(items, domain, pkg, reference, distType) && (ok <==> url != "")
    {
      var key := DistKey(domain, pkg, reference, distType);
      if key == "" {
        return "", false;
      }
      if key !in items || TrimSpace(items[key]) == "" {
        return "", false;
      }
      BlankIsBlank();
      return items[key], true;
    }

    method Reset()
      modifies this
      ensures items == map[]
    {
      items := map[];
    }
  }

  /** `rewriteComposerVersion`: the version's maps are updated step by step. */
  method RewriteVersion(registry: DistRegistry, version: Version, domain: string, pkg: string)
    returns (entry: Version, changed: bool)
    modifies registry
    ensures entry == RewriteVersionValue(version, domain, pkg)
    ensures changed == VersionChanges(version, domain, pkg)
    ensures Merged(old(registry.items), Contribution(version, domain, pkg), registry.items)
  {
    MergedNothing(registry.items);
    entry, changed := version, false;
    if version.NoVersion? {
      return;
    }
    var d := TrimSpace(domain);
    var fields := version.fields;
    if pkg != "" {
      if TrimSpace(StringField(fields, "name")) == "" {
        fields := fields["name" := JString(pkg)];
        changed := true;
      }
    }
    entry := Version(fields);
    assert fields == Named(version.fields, pkg) && HasDist(fields) == HasDist(version.fields);
    if "dist" !in fields || !fields["dist"].JObject? {
      return;
    }
    var dist := fields["dist"].fields;
    var url := StringField(dist, "url");
    if url == "" {
      return;
    }
    var reference, distType := StringField(dist, "reference"), StringField(dist, "type");
    if pkg != "" && d != "" && reference != "" && distType != "" {
      registry.Remember(d, pkg, reference, distType, url);
      MergedOne(old(registry.items), DistKey(d, pkg, reference, distType), url);
    }
    var rewritten := RewriteDistUrl(url, d);
    if rewritten == url {
      return;
    }
    dist := dist["url" := JString(rewritten)];
    entry := Version(fields["dist" := JObject(dist)]);
    changed := true;
  }

  lemma MergedOne(r: Registry, key: string, url: string)
    ensures Merged(r, {Item(key, url)}, r[key := url])
  {
    assert Written({Item(key, url)}, key, url);
  }

  // ---- Many versions ----------------------------------------------------------

  function RewriteList(vs: seq<Version>, domain: string, pkg: string): (r: seq<Version>)
    ensures |r| == |vs|
  {
    seq(|vs|, i requires 0 <= i < |vs| => RewriteVersionValue(vs[i], domain, pkg))
  }

  function RewriteByName(m: map<string, Version>, domain: string, pkg: string): map<string, Version> {
    map name | name in m :: RewriteVersionValue(m[name], domain, pkg)
  }

  ghost predicate SomeChanges(vs: set<Version>, domain: string, pkg: string) {
    exists v :: v in vs && VersionChanges(v, domain, pkg)
  }

  ghost function Prefix(vs: seq<Version>, n: nat): set<Version>
    requires n <= |vs|
  {
    set i | 0 <= i < n :: vs[i]
  }

  ghost function AtNames(m: map<string, Version>, names: set<string>): set<Version>
    requires names <= m.Keys
  {
    set name | name in names :: m[name]
  }

  lemma PrefixAdd(vs: seq<Version>, n: nat)
    requires n < |vs|
    ensures Prefix(vs, n + 1) == Prefix(vs, n) + {vs[n]}
  {
  }

  lemma NoNames(m: map<string, Version>)
    ensures AtNames(m, {}) == {}
  {
  }

  lemma AtNamesAdd(m: map<string, Version>, names: set<string>, name: string)
    requires names <= m.Keys && name in m
    ensures AtNames(m, names + {name}) == AtNames(m, names) + {m[name]}
  {
  }

  /** What a step that handles one more version keeps, for a list and for a map alike. */
  lemma OneMore(start: Registry, vs: set<Version>, before: Registry, v: Version, after: Registry, domain: string, pkg: string)
    requires Merged(start, Contributions(vs, domain, pkg), before) && Merged(before, Contribution(v, domain, pkg), after)
    ensures Merged(start, Contributions(vs + {v}, domain, pkg), after)
    ensures SomeChanges(vs + {v}, domain, pkg) <==> SomeChanges(vs, domain, pkg) || VersionChanges(v, domain, pkg)
  {
    MergedInSequence(start, Contributions(vs, domain, pkg), before, Contribution(v, domain, pkg), after);
    assert Contributions(vs + {v}, domain, pkg) == Contributions(vs, domain, pkg) + Contribution(v, domain, pkg);
  }

  lemma NoneYet(start: Registry, domain: string, pkg: string)
    ensures Merged(start, Contributions({}, domain, pkg), start) && !SomeChanges({}, domain, pkg)
  {
    assert Contributions({}, domain, pkg) == {};
    MergedNothing(start);
  }

  /** `rewriteComposerVersionSlice`: every element is rewritten where it stands. */
  method RewriteVersionSlice(registry: DistRegistry, entries: array<Version>, domain: string, pkg: string)
    returns (changed: bool)
    modifies registry, entries
    ensures entries[..] == RewriteList(old(entries[..]), domain, pkg)
    ensures changed <==> SomeChanges(Prefix(old(entries[..]), entries.Length), domain, pkg)
    ensures Merged(old(registry.items), Contributions(Prefix(old(entries[..]), entries.Length), domain, pkg), registry.items)
  {
    hide Merged, SomeChanges, Contributions, VersionChanges, RewriteVersionValue, Prefix, ListDone, RewriteList;
    changed := false;
    ghost var values := entries[..];
    NoneYet(registry.items, domain, pkg);
    ListAtEnds(values, domain, pkg);
    for n := 0 to entries.Length
      invariant entries[..] == ListDone(values, n, domain, pkg)
      invariant changed <==> SomeChanges(Prefix(values, n), domain, pkg)
      invariant Merged(old(registry.items), Contributions(Prefix(values, n), domain, pkg), registry.items)
    {
      ghost var before := registry.items;
      ListStep(values, n, domain, pkg);
      assert entries[n] == entries[..][n];
      var entry, c := RewriteVersion(registry, entries[n], domain, pkg);
      entries[n] := entry;
      assert entries[..] == ListDone(values, n, domain, pkg)[n := entry];
      OneMore(old(registry.items), Prefix(values, n), before, values[n], registry.items, domain, pkg);
      PrefixAdd(values, n);
      if c {
        changed := true;
      }
    }
  }

  /** The list with its first `n` entries rewritten. */
  ghost function ListDone(vs: seq<Version>, n: nat, domain: string, pkg: string): (r: seq<Version>)
    ensures |r| == |vs|
  {
    seq(|vs|, i requires 0 <= i < |vs| => if i < n then RewriteVersionValue(vs[i], domain, pkg) else vs[i])
  }

  lemma ListAtEnds(vs: seq<Version>, domain: string, pkg: string)
    ensures ListDone(vs, 0, domain, pkg) == vs && ListDone(vs, |vs|, domain, pkg) == RewriteList(vs, domain, pkg)
    ensures Prefix(vs, 0) == {}
  {
    hide RewriteVersionValue;
  }

  lemma ListStep(vs: seq<Version>, n: nat, domain: string, pkg: string)
    requires n < |vs|
    ensures ListDone(vs, n, domain, pkg)[n] == vs[n]
    ensures ListDone(vs, n, domain, pkg)[n := RewriteVersionValue(vs[n], domain, pkg)] == ListDone(vs, n + 1, domain, pkg)
  {
    hide RewriteVersionValue;
  }

  /** `rewriteComposerVersionMap`: the names come in an arbitrary order, which the result does not show. */
  method RewriteVersionMap(registry: DistRegistry, byName: map<string, Version>, domain: string, pkg: string)
    returns (entries: map<string, Version>, changed: bool)
    modifies registry
    ensures entries == RewriteByName(byName, domain, pkg)
    ensures changed <==> SomeChanges(AtNames(byName, byName.Keys), domain, pkg)
    ensures Merged(old(registry.items), Contributions(AtNames(byName, byName.Keys), domain, pkg), registry.items)
  {
    hide Merged, SomeChanges, Contributions, VersionChanges, RewriteVersionValue, AtNames, NamesDone;
    entries, changed := byName, false;
    var done := {};
    NoneYet(registry.items, domain, pkg);
    NoNames(byName);
    NamesAtEnds(byName, domain, pkg);
    while done != byName.Keys
      invariant done <= byName.Keys && entries == NamesDone(byName, done, domain, pkg)
      invariant changed <==> SomeChanges(AtNames(byName, done), domain, pkg)
      invariant Merged(old(registry.items), Contributions(AtNames(byName, done), domain, pkg), registry.items)
      decreases |byName.Keys - done|
    {
      var name :| name in byName.Keys - done;
      ghost var before := registry.items;
      NamesStep(byName, done, domain, pkg, name);
      var entry, c := RewriteVersion(registry, entries[name], domain, pkg);
      entries := entries[name := entry];
      OneMore(old(registry.items), AtNames(byName, done), before, byName[name], registry.items, domain, pkg);
      AtNamesAdd(byName, done, name);
      Fewer(byName.Keys, done, name);
      done := done + {name};
      if c {
        changed := true;
      }
    }
  }

  /** The version map with some entries rewritten. */
  ghost function NamesDone(m: map<string, Version>, done: set<string>, domain: string, pkg: string): map<string, Version> {
    map name | name in m :: if name in done then RewriteVersionValue(m[name], domain, pkg) else m[name]
  }

  lemma NamesAtEnds(m: map<string, Version>, domain: string, pkg: string)
    ensures NamesDone(m, {}, domain, pkg) == m && NamesDone(m, m.Keys, domain, pkg) == RewriteByName(m, domain, pkg)
  {
    hide RewriteVersionValue;
  }

  lemma NamesStep(m: map<string, Version>, done: set<string>, domain: string, pkg: string, name: string)
    requires name in m.Keys - done
    ensures name in NamesDone(m, done, domain, pkg) && NamesDone(m, done, domain, pkg)[name] == m[name]
    ensures NamesDone(m, done, domain, pkg)[name := RewriteVersionValue(m[name], domain, pkg)] == NamesDone(m, done + {name}, domain, pkg)
  {
    hide RewriteVersionValue;
  }

  // ---- One package, and all of them -------------------------------------------

  ghost function VersionsOf(p: Payload): set<Version> {
    match p
    case VersionList(vs) => Prefix(vs, |vs|)
    case VersionMap(m) => AtNames(m, m.Keys)
    case Opaque(_) => {}
  }

  function RewritePayload(p: Payload, domain: string, pkg: string): Payload {
    match p
    case VersionList(vs) => VersionList(RewriteList(vs, domain, pkg))
    case VersionMap(m) => VersionMap(RewriteByName(m, domain, pkg))
    case Opaque(_) => p
  }

  ghost predicate PayloadChanges(p: Payload, domain: string, pkg: string) {
    SomeChanges(VersionsOf(p), domain, pkg)
  }

  lemma UnchangedPayload(p: Payload, domain: string, pkg: string)
    requires !PayloadChanges(p, domain, pkg)
    ensures RewritePayload(p, domain, pkg) == p
  {
    match p
    case VersionList(vs) =>
      forall i | 0 <= i < |vs| ensures RewriteList(vs, domain, pkg)[i] == vs[i] {
        assert vs[i] in VersionsOf(p);
        UnchangedVersion(vs[i], domain, pkg);
      }
    case VersionMap(m) =>
      forall name | name in m ensures RewriteVersionValue(m[name], domain, pkg) == m[name] {
        assert m[name] in VersionsOf(p);
        UnchangedVersion(m[name], domain, pkg);
      }
    case Opaque(_) =>
  }

  /** `rewriteComposerPackagesPayload`. */
  method RewritePackagesPayload(registry: DistRegistry, raw: Payload, domain: string, pkg: string)
    returns (payload: Payload, changed: bool)
    modifies registry
    ensures payload == RewritePayload(raw, domain, pkg)
    ensures changed <==> PayloadChanges(raw, domain, pkg)
    ensures Merged(old(registry.items), Contributions(VersionsOf(raw), domain, pkg), registry.items)
  {
    match raw {
      case VersionList(vs) =>
        var entries := new Version[|vs|](i requires 0 <= i < |vs| => vs[i]);
        assert entries[..] == vs;
        changed := RewriteVersionSlice(registry, entries, domain, pkg);
        if !changed {
          UnchangedPayload(raw, domain, pkg);
          return raw, false;
        }
        payload := VersionList(entries[..]);
      case VersionMap(m) =>
        var entries;
        entries, changed := RewriteVersionMap(registry, m, domain, pkg);
        if !changed {
          UnchangedPayload(raw, domain, pkg);
          return raw, false;
        }
        payload := VersionMap(entries);
      case Opaque(_) =>
        NoneYet(registry.items, domain, pkg);
        return raw, false;
    }
  }

  function RewritePackages(packages: Packages, domain: string): Packages {
    map name | name in packages :: RewritePayload(packages[name], domain, name)
  }

  ghost predicate PackagesChange(packages: Packages, names: set<string>, domain: string)
    requires names <= packages.Keys
  {
    exists name :: name in names && PayloadChanges(packages[name], domain, name)
  }

  ghost function PackageItems(packages: Packages, names: set<string>, domain: string): set<Item>
    requires names <= packages.Keys
  {
    set name, c | name in names && c in Contributions(VersionsOf(packages[name]), domain, name) :: c
  }

  lemma NoPackageYet(start: Registry, packages: Packages, domain: string)
    ensures Merged(start, PackageItems(packages, {}, domain), start) && !PackagesChange(packages, {}, domain)
  {
    assert PackageItems(packages, {}, domain) == {};
    MergedNothing(start);
  }

  lemma OnePackageMore(start: Registry, packages: Packages, done: set<string>, name: string,
                       before: Registry, after: Registry, domain: string)
    requires done <= packages.Keys && name in packages
    requires Merged(start, PackageItems(packages, done, domain), before)
    requires Merged(before, Contributions(VersionsOf(packages[name]), domain, name), after)
    ensures Merged(start, PackageItems(packages, done + {name}, domain), after)
    ensures PackagesChange(packages, done + {name}, domain)
            <==> PackagesChange(packages, done, domain) || PayloadChanges(packages[name], domain, name)
  {
    var these := Contributions(VersionsOf(packages[name]), domain, name);
    MergedInSequence(start, PackageItems(packages, done, domain), before, these, after);
    PackageItemsAdd(packages, done, name, domain);
  }

  lemma PackageItemsAdd(packages: Packages, done: set<string>, name: string, domain: string)
    requires done <= packages.Keys && name in packages
    ensures PackageItems(packages, done + {name}, domain)
         == PackageItems(packages, done, domain) + Contributions(VersionsOf(packages[name]), domain, name)
  {
  }

  /** `rewriteComposerMetadata`, on decoded packages: the packages come in an arbitrary order. */
  method RewriteMetadata(registry: DistRegistry, root: Packages, domain: string) returns (packages: Packages, changed: bool)
    modifies registry
    ensures TrimSpace(domain) == "" ==> packages == root && !changed && registry.items == old(registry.items)
    ensures TrimSpace(domain) != "" ==> packages == RewritePackages(root, domain)
    ensures TrimSpace(domain) != "" ==> (changed <==> PackagesChange(root, root.Keys, domain))
    ensures TrimSpace(domain) != "" ==> Merged(old(registry.items), PackageItems(root, root.Keys, domain), registry.items)
  {
    if TrimSpace(domain) == "" {
      return root, false;
    }
    packages, changed := RewriteEachPackage(registry, root, domain);
  }

  /** One turn of the loop over the packages: the payload is replaced when it changed. */
  method RewriteOnePackage(registry: DistRegistry, packages: Packages, domain: string, name: string)
    returns (updated: Packages, rewritten: bool)
    requires name in packages
    modifies registry
    ensures updated == packages[name := RewritePayload(packages[name], domain, name)]
    ensures rewritten <==> PayloadChanges(packages[name], domain, name)
    ensures Merged(old(registry.items), Contributions(VersionsOf(packages[name]), domain, name), registry.items)
  {
    hide Merged, PayloadChanges, Contributions, VersionsOf, RewritePayload;
    var payload;
    payload, rewritten := RewritePackagesPayload(registry, packages[name], domain, name);
    updated := packages;
    if rewritten {
      updated := packages[name := payload];
    } else {
      UnchangedPayload(packages[name], domain, name);
      assert packages == packages[name := packages[name]];
    }
  }

  /** The loop over the packages of a document. */
  method RewriteEachPackage(registry: DistRegistry, root: Packages, domain: string) returns (packages: Packages, changed: bool)
    modifies registry
    ensures packages == RewritePackages(root, domain)
    ensures changed <==> PackagesChange(root, root.Keys, domain)
    ensures Merged(old(registry.items), PackageItems(root, root.Keys, domain), registry.items)
  {
    hide Merged, PayloadChanges, Contributions, VersionsOf, PackageItems, PackagesChange, RewritePayload, PackagesDone;
    packages, changed := root, false;
    var done := {};
    NoPackageYet(registry.items, root, domain);
    PackagesAtEnds(root, domain);
    while done != root.Keys
      invariant done <= root.Keys && packages == PackagesDone(root, done, domain)
      invariant changed <==> PackagesChange(root, done, domain)
      invariant Merged(old(registry.items), PackageItems(root, done, domain), registry.items)
      decreases |root.Keys - done|
    {
      var name :| name in root.Keys - done;
      ghost var before := registry.items;
      PackagesStep(root, done, domain, name);
      var rewritten;
      packages, rewritten := RewriteOnePackage(registry, packages, domain, name);
      OnePackageMore(old(registry.items), root, done, name, before, registry.items, domain);
      if rewritten {
        changed := true;
      }
      Fewer(root.Keys, done, name);
      done := done + {name};
    }
  }

  lemma Fewer(all: set<string>, done: set<string>, name: string)
    requires name in all - done
    ensures |all - (done + {name})| < |all - done|
  {
    assert all - (done + {name}) == all - done - {name};
  }

  /** The document with the payloads of some packages rewritten. */
  ghost function PackagesDone(root: Packages, done: set<string>, domain: string): Packages {
    map name | name in root :: if name in done then RewritePayload(root[name], domain, name) else root[name]
  }

  lemma PackagesAtEnds(root: Packages, domain: string)
    ensures PackagesDone(root, {}, domain) == root && PackagesDone(root, root.Keys, domain) == RewritePackages(root, domain)
  {
    hide RewritePayload;
  }

  lemma PackagesStep(root: Packages, done: set<string>, domain: string, name: string)
    requires name in root.Keys - done
    ensures name in PackagesDone(root, done, domain) && PackagesDone(root, done, domain)[name] == root[name]
    ensures PackagesDone(root, done, domain)[name := RewritePayload(root[name], domain, name)] == PackagesDone(root, done + {name}, domain)
  {
    hide RewritePayload;
  }

  // ---- A second pass over a document ----------------------------------------------

  /** The versions of a rewritten payload are the rewritten versions of the payload. */
  lemma RewrittenVersions(p: Payload, domain: string, pkg: string)
    ensures VersionsOf(RewritePayload(p, domain, pkg)) == set v | v in VersionsOf(p) :: RewriteVersionValue(v, domain, pkg)
  {
    hide RewriteVersionValue;
    var rewritten := VersionsOf(RewritePayload(p, domain, pkg));
    match p
    case VersionList(vs) =>
      forall i | 0 <= i < |vs| ensures vs[i] in VersionsOf(p) && RewriteVersionValue(vs[i], domain, pkg) in rewritten {
        assert RewriteList(vs, domain, pkg)[i] in rewritten;
      }
    case VersionMap(m) =>
      forall name | name in m ensures m[name] in VersionsOf(p) && RewriteVersionValue(m[name], domain, pkg) in rewritten {
        assert RewriteByName(m, domain, pkg)[name] in rewritten;
      }
    case Opaque(_) =>
  }

  ghost predicate SomeChangesTwice(vs: set<Version>, domain: string, pkg: string) {
    exists v :: v in vs && ChangesTwice(v, domain, pkg)
  }

  lemma SecondPassOverPayload(p: Payload, domain: string, pkg: string)
    ensures PayloadChanges(RewritePayload(p, domain, pkg), domain, pkg) <==> SomeChangesTwice(VersionsOf(p), domain, pkg)
  {
    RewrittenVersions(p, domain, pkg);
    forall v | v in VersionsOf(p)
      ensures VersionChanges(RewriteVersionValue(v, domain, pkg), domain, pkg) <==> ChangesTwice(v, domain, pkg)
    {
      if v.Version? {
        SecondPass(v.fields, domain, pkg);
      }
    }
    hide VersionsOf, RewritePayload, RewriteVersionValue, VersionChanges, ChangesTwice;
    if SomeChangesTwice(VersionsOf(p), domain, pkg) {
      var v :| v in VersionsOf(p) && ChangesTwice(v, domain, pkg);
      assert RewriteVersionValue(v, domain, pkg) in VersionsOf(RewritePayload(p, domain, pkg));
    }
  }

  /** A second pass over a whole rewritten document reports a change exactly when some version of the
      original document leaves something to rewrite. */
  lemma SecondPassOverDocument(packages: Packages, domain: string)
    ensures PackagesChange(RewritePackages(packages, domain), packages.Keys, domain) <==>
            exists name :: name in packages && SomeChangesTwice(VersionsOf(packages[name]), domain, name)
  {
    hide PayloadChanges, RewritePayload, VersionsOf, SomeChangesTwice;
    forall name | name in packages
      ensures PayloadChanges(RewritePackages(packages, domain)[name], domain, name) <==>
              SomeChangesTwice(VersionsOf(packages[name]), domain, name)
    {
      SecondPassOverPayload(packages[name], domain, name);
    }
  }

  ghost predicate AllCleanDists(packages: Packages) {
    forall name :: name in packages ==> TrimSpace(name) != "" && forall v :: v in VersionsOf(packages[name]) ==> CleanDist(v)
  }

  /** So it reports none for a document whose packages have names and whose dist URLs have clean paths. */
  lemma SecondPassSettles(packages: Packages, domain: string)
    requires IsPlainHost(domain) && AllCleanDists(packages)
    ensures !PackagesChange(RewritePackages(packages, domain), packages.Keys, domain)
  {
    SecondPassOverDocument(packages, domain);
    hide PackagesChange, RewritePackages, VersionsOf, ChangesTwice, CleanDist;
    forall name | name in packages ensures !SomeChangesTwice(VersionsOf(packages[name]), domain, name) {
      forall v | v in VersionsOf(packages[name]) ensures !ChangesTwice(v, domain, name) {
        CleanDistSettles(v, domain, name);
      }
    }
  }

  // ---- Both routes lead to the original -----------------------------------------

  function ReferenceOf(f: Fields): string
    requires HasDist(f)
  {
    StringField(f["dist"].fields, "reference")
  }

  function TypeOf(f: Fields): string
    requires HasDist(f)
  {
    StringField(f["dist"].fields, "type")
  }

  /** A version whose dist can be served through the proxy. */
  predicate Servable(f: Fields, domain: string, pkg: string, u: Url) {
    HasDist(f) && DistUrlOf(f) == Print(u) && DistUrl(u) && MirrorName(pkg, ReferenceOf(f), TypeOf(f))
  }

  lemma ServableContributes(f: Fields, domain: string, pkg: string, u: Url)
    requires Servable(f, domain, pkg, u) && IsPlainHost(domain)
    ensures var key := DistKey(domain, pkg, ReferenceOf(f), TypeOf(f));
            key != "" && Contribution(Version(f), domain, pkg) == {Item(key, Print(u))}
    ensures TrimSpace(domain) == domain && TrimSpace(Print(u)) != ""
  {
    PathTextEdges(domain);
    TrimSpaceIdentity(domain);
    PrintTrimmed(u);
    KeyPresent(domain, pkg, ReferenceOf(f), TypeOf(f));
  }

  lemma KeyPresent(domain: string, pkg: string, reference: string, distType: string)
    requires domain != "" && NoEdgeSpace(domain) && MirrorName(pkg, reference, distType)
    ensures DistKey(domain, pkg, reference, distType) != ""
  {
    TrimSpaceIdentity(domain);
    TrimSpaceIdentity(pkg);
    TrimSpaceIdentity(reference);
    TrimSpaceIdentity(distType);
  }

  /** With distinct keys, every offered item is what the registry holds afterwards. */
  lemma MergedHolds(before: Registry, items: set<Item>, after: Registry, item: Item)
    requires Merged(before, items, after) && DistinctKeys(items) && item in items
    ensures item.key in after && after[item.key] == item.url
  {
    assert Written(items, item.key, item.url) && Touched(items, item.key);
    assert item.key in after;
    assert Written(items, item.key, after[item.key]);
    assert Item(item.key, after[item.key]) == item;
  }

  /** After the metadata of any set of packages was rewritten with distinct registry keys, the mirror path of
      each version reaches its original URL, and so does the rewritten link, exactly when that URL is not one on
      the proxy already. */
  lemma BothRoutesAgree(before: Registry, packages: Packages, domain: string, after: Registry,
                        pkg: string, f: Fields, u: Url, rawQuery: string)
    requires IsPlainHost(domain)
    requires DistinctKeys(PackageItems(packages, packages.Keys, domain))
    requires Merged(before, PackageItems(packages, packages.Keys, domain), after)
    requires pkg in packages && Version(f) in VersionsOf(packages[pkg])
    requires Servable(f, domain, pkg, u) && IsClean(u.path) && u.path != "/"
    ensures var g := RewriteFields(f, domain, pkg);
            HasDist(g) && Parse(DistUrlOf(g)).ParsedUrl? &&
            var link := Parse(DistUrlOf(g)).url;
            ResolveUpstream(after, domain, ServedPath(link.path), link.rawQuery) == Print(u) <==> !IsProxied(u, domain)
    ensures ResolveUpstream(after, domain, ServedPath(MirrorPath(pkg, ReferenceOf(f), TypeOf(f))), rawQuery) == Print(u)
  {
    ServableContributes(f, domain, pkg, u);
    if IsProxied(u, domain) {
      ProxiedRoute(after, domain, pkg, f, u);
    } else {
      FirstRoute(after, domain, pkg, f, u);
    }
    var key := DistKey(domain, pkg, ReferenceOf(f), TypeOf(f));
    var item := Item(key, Print(u));
    ItemOffered(packages, domain, pkg, Version(f), item);
    MergedHolds(before, PackageItems(packages, packages.Keys, domain), after, item);
    PathTextEdges(domain);
    MirrorRoundTrip(after, domain, pkg, ReferenceOf(f), TypeOf(f), rawQuery);
  }

  /** A dist URL that is itself a rewritten link stays, and leads to the URL it was made from, while the mirror
      path of its version leads to the link. */
  lemma RewrittenTwice(items: Registry, domain: string, pkg: string, f: Fields, u: Url)
    requires IsPlainHost(domain) && DistUrl(u) && IsClean(u.path) && u.path != "/"
    requires HasDist(f) && DistUrlOf(f) == Print(LinkUrl(u, domain))
    ensures var g := RewriteFields(f, domain, pkg);
            HasDist(g) && DistUrlOf(g) == DistUrlOf(f) && Parse(DistUrlOf(g)) == ParsedUrl(LinkUrl(u, domain)) &&
            ResolveUpstream(items, domain, ServedPath(LinkPath(u)), u.rawQuery) == Print(u)
  {
    var link := LinkUrl(u, domain);
    LinkIsPlain(u, domain);
    LinkBelowDist(u);
    LinkPathText(u);
    EqualFoldSame(domain);
    ProxiedLink(items, domain, pkg, f, link);
    LinkParsesBack(u);
  }

  /** A link on the proxy stays as it is, and is resolved from its path alone. */
  lemma ProxiedLink(items: Registry, domain: string, pkg: string, f: Fields, u: Url)
    requires IsPlainHost(domain) && DistUrl(u) && IsProxied(u, domain) && IsClean(u.path)
    requires HasDist(f) && DistUrlOf(f) == Print(u)
    ensures var g := RewriteFields(f, domain, pkg);
            HasDist(g) && DistUrlOf(g) == Print(u) && Parse(Print(u)) == ParsedUrl(u)
    ensures ResolveUpstream(items, domain, ServedPath(u.path), u.rawQuery)
            == match ParseDistUrl(u.path, u.rawQuery) case NoTarget => "" case Target(t) => Print(t)
  {
    hide Parse, Print, RewriteDistUrl, ServedPath, RewriteFields, ParseDistUrl, IsClean, IsPathText, IsQueryText, IsHost, EnsureLeadingSlash;
    PathTextEdges(domain);
    TrimSpaceIdentity(domain);
    ProxiedStays(u, domain);
    PrintTrimmed(u);
    ParsePrint(u);
    PathTextEdges(u.path);
    EnsureClean(u.path);
    PrefixesDiffer(u.path);
    OnlyNameAndUrlChange(f, domain, pkg);
  }

  /** Where it leads is never the link itself. */
  lemma ProxiedRoute(items: Registry, domain: string, pkg: string, f: Fields, u: Url)
    requires IsPlainHost(domain) && Servable(f, domain, pkg, u) && IsProxied(u, domain) && IsClean(u.path)
    ensures var g := RewriteFields(f, domain, pkg);
            HasDist(g) && Parse(DistUrlOf(g)).ParsedUrl? &&
            var link := Parse(DistUrlOf(g)).url;
            ResolveUpstream(items, domain, ServedPath(link.path), link.rawQuery) != Print(u)
  {
    hide Parse, RewriteFields, ServedPath, ParseDistUrl, Print, ResolveUpstream, IsProxied, DistUrl, Plain, IsPlainHost, IsClean, MirrorName;
    ProxiedLink(items, domain, pkg, f, u);
    LeadsElsewhere(u);
  }

  lemma LeadsElsewhere(u: Url)
    requires DistUrl(u) && IsClean(u.path)
    ensures Print(u) != match ParseDistUrl(u.path, u.rawQuery) case NoTarget => "" case Target(t) => Print(t)
  {
    PathTextEdges(u.path);
    EnsureClean(u.path);
    hide Cut, IsClean, EnsureLeadingSlash, FragmentText, QueryText, IsPlainHost, IsPathText, IsHost;
    if ParseDistUrl(u.path, u.rawQuery).Target? {
      var t := ParseDistUrl(u.path, u.rawQuery).url;
      assert |u.path| == |"/dist/"| + |t.scheme| + |"/"| + |t.host| + |t.path|;
      assert |Print(t)| < |Print(u)|;
    }
  }

  lemma ItemOffered(packages: Packages, domain: string, pkg: string, v: Version, item: Item)
    requires pkg in packages && v in VersionsOf(packages[pkg]) && item in Contribution(v, domain, pkg)
    ensures item in PackageItems(packages, packages.Keys, domain)
  {
    assert item in Contributions(VersionsOf(packages[pkg]), domain, pkg);
  }

  lemma FirstRoute(items: Registry, domain: string, pkg: string, f: Fields, u: Url)
    requires IsPlainHost(domain) && TrimSpace(domain) == domain
    requires Servable(f, domain, pkg, u) && !IsProxied(u, domain) && IsClean(u.path) && u.path != "/"
    ensures var g := RewriteFields(f, domain, pkg);
            HasDist(g) && Parse(DistUrlOf(g)).ParsedUrl? &&
            var link := Parse(DistUrlOf(g)).url;
            ResolveUpstream(items, domain, ServedPath(link.path), link.rawQuery) == Print(u)
  {
    hide Parse, Print, RewriteDistUrl, ResolveUpstream, ServedPath, RewriteFields, DistUrl, LinkUrl, Plain;
    LinkResolves(items, u, domain);
    LinkShape(u, domain);
    PrintTrimmed(LinkUrl(u, domain));
    OnlyNameAndUrlChange(f, domain, pkg);
  }

  // ---- When two versions share a registry key -----------------------------------

  /** The parts of a key, without a separator inside any of them. */
  predicate KeyParts(domain: string, pkg: string, reference: string, distType: string) {
    DistKey(domain, pkg, reference, distType) != "" &&
    '|' !in domain && '|' !in pkg && '|' !in reference && '|' !in distType
  }

  lemma BarCut(a: string, b: string)
    requires '|' !in a
    ensures Cut(a + "|" + b, '|') == (a, b, true)
  {
    CutAt(a, '|', b);
  }

  lemma LowerTrimmedHasNoBar(s: string)
    requires '|' !in s
    ensures '|' !in ToLower(TrimSpace(s)) && '|' !in TrimSpace(s)
  {
    TrimSpaceWithin(s);
    var t := TrimSpace(s);
    forall i | 0 <= i < |t| ensures ToLower(t)[i] != '|' {
      assert t[i] in s;
    }
  }

  /** A key is usable exactly when none of its parts is blank. */
  lemma KeyUsable(domain: string, pkg: string, reference: string, distType: string)
    ensures DistKey(domain, pkg, reference, distType) != "" <==>
            TrimSpace(domain) != "" && TrimSpace(pkg) != "" && TrimSpace(reference) != "" && TrimSpace(distType) != ""
  {
  }

  /** Keys agree exactly when all four normalised parts agree. */
  lemma KeyInjective(d1: string, p1: string, r1: string, t1: string, d2: string, p2: string, r2: string, t2: string)
    requires KeyParts(d1, p1, r1, t1) && KeyParts(d2, p2, r2, t2)
    ensures DistKey(d1, p1, r1, t1) == DistKey(d2, p2, r2, t2)
            <==> ToLower(TrimSpace(d1)) == ToLower(TrimSpace(d2)) && ToLower(TrimSpace(p1)) == ToLower(TrimSpace(p2)) &&
                 TrimSpace(r1) == TrimSpace(r2) && ToLower(TrimSpace(t1)) == ToLower(TrimSpace(t2))
  {
    KeyReads(d1, p1, r1, t1);
    KeyReads(d2, p2, r2, t2);
  }

  /** A key can be cut back into its parts. */
  lemma KeyReads(d: string, p: string, r: string, t: string)
    requires KeyParts(d, p, r, t)
    ensures var c1 := Cut(DistKey(d, p, r, t), '|'); var c2 := Cut(c1.1, '|'); var c3 := Cut(c2.1, '|');
            c1.0 == ToLower(TrimSpace(d)) && c2.0 == ToLower(TrimSpace(p)) && c3.0 == TrimSpace(r) && c3.1 == ToLower(TrimSpace(t))
  {
    LowerTrimmedHasNoBar(d);
    LowerTrimmedHasNoBar(p);
    LowerTrimmedHasNoBar(r);
    FourParts(ToLower(TrimSpace(d)), ToLower(TrimSpace(p)), TrimSpace(r), ToLower(TrimSpace(t)));
  }

  lemma FourParts(a: string, b: string, c: string, d: string)
    requires '|' !in a && '|' !in b && '|' !in c
    ensures var c1 := Cut(a + "|" + b + "|" + c + "|" + d, '|'); var c2 := Cut(c1.1, '|'); var c3 := Cut(c2.1, '|');
            c1.0 == a && c2.0 == b && c3.0 == c && c3.1 == d
  {
    var r3 := c + "|" + d;
    var r2 := b + "|" + r3;
    BarCut(a, r2);
    BarCut(b, r3);
    BarCut(c, d);
    Assoc(a + "|" + b + "|", c, "|");
    Assoc(a + "|" + b + "|", c + "|", d);
    Assoc(a + "|", b, "|");
    Assoc(a + "|", b + "|", r3);
  }
}
