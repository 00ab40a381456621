/** What the two licence gates demand of an inventory and a catalogue, entry by entry and character by character. */
module LicenseDemands {
  import opened Options
  import opened Text
  import opened LicenseInventory

  // ---- Texts ----

  /** A name the file system keeps for a device, in any mixture of capitals. */
  predicate IsDevice(name: string) {
    var word := Upper(name);
    || word == "CON" || word == "PRN" || word == "AUX" || word == "NUL"
    || (|word| == 4 && (word[..3] == "COM" || word[..3] == "LPT") && '1' <= word[3] <= '9')
  }

  /** `name` is what stands in front of the first dot. */
  predicate IsStem(part: string, name: string) {
    && |name| <= |part| && name == part[..|name|] && '.' !in name
    && (|name| == |part| || part[|name|] == '.')
  }

  ghost predicate PartDemands(part: string) {
    && part != "" && part != "." && part != ".."
    && part[|part| - 1] != ' ' && part[|part| - 1] != '.'
    && forall name :: IsStem(part, name) ==> !IsDevice(name)
  }

  ghost predicate PathDemands(path: string) {
    && 1 <= |path| <= 240
    && (forall c <- path ::
          && c >= ' ' && c != '\\' && c != ':' && c != '*' && c != '?'
          && c != '<' && c != '>' && c != '|' && c != '"')
    && forall part :: IsPart(path, '/', part) ==> PartDemands(part)
  }

  predicate IsHexText(s: string, n: nat) { |s| == n && forall c <- s :: c in "0123456789abcdef" }

  /** The record names a component, its licence and the text of it. */
  ghost predicate RecordDemands(l: License) {
    && 1 <= |l.id| <= 120
    && (forall c <- l.id :: '0' <= c <= '9' || 'A' <= c <= 'Z' || 'a' <= c <= 'z' || c == '.' || c == '_' || c == '-')
    && (forall field <- [l.name, l.version, l.license] :: 1 <= |field| <= 160 && forall c <- field :: c >= ' ')
    && PathDemands(l.textPath)
    && (l.textPath == "LICENSE" || exists name :: '/' !in name && l.textPath == "licenses/" + name)
    && IsHexText(l.textSha256, 64)
  }

  lemma {:induction false} SameStem(part: string, a: string, b: string)
    requires IsStem(part, a) && IsStem(part, b)
    ensures a == b
  {
    assert forall k :: 0 <= k < |a| ==> a[k] == part[k] && a[k] != '.';
    assert forall k :: 0 <= k < |b| ==> b[k] == part[k] && b[k] != '.';
  }

  lemma {:induction false} NumberedDevice(port: string, digit: char)
    requires (port == "COM" || port == "LPT") && '1' <= digit <= '9'
    ensures port + [digit] in RESERVED_NAMES
  {
    var name := port + [digit];
    assert |name| == 4 && name[..3] == port && name[3] == digit;
    var ports := ["COM1", "COM2", "COM3", "COM4", "COM5", "COM6", "COM7", "COM8", "COM9"];
    if port == "COM" {
      assert name == ports[digit as int - '1' as int];
    } else {
      var more := ["LPT1", "LPT2", "LPT3", "LPT4", "LPT5", "LPT6", "LPT7", "LPT8", "LPT9"];
      assert name == more[digit as int - '1' as int];
    }
  }

  lemma {:induction false} DevicesAreReserved(name: string)
    ensures Upper(name) in RESERVED_NAMES <==> IsDevice(name)
  {
    var word := Upper(name);
    if |word| == 4 && (word[..3] == "COM" || word[..3] == "LPT") && '1' <= word[3] <= '9' {
      NumberedDevice(word[..3], word[3]);
      assert word == word[..3] + [word[3]];
    }
  }

  lemma {:induction false} PartsAreSafe(part: string)
    ensures SafePart(part) <==> PartDemands(part)
  {
    hide RESERVED_NAMES, Upper, SplitOn, IsDevice;
    FirstPart(part, '.');
    var stem := SplitOn(part, '.')[0];
    assert IsStem(part, stem);
    forall name | IsStem(part, name) ensures name == stem { SameStem(part, name, stem); }
    DevicesAreReserved(stem);
  }

  lemma {:induction false} PathsAreSafe(path: string)
    ensures SafeRelative(path) <==> PathDemands(path)
  {
    hide SafePart, PartDemands, SplitOn, IsPart;
    forall part ensures part in SplitOn(path, '/') <==> IsPart(path, '/', part) { PartsAreBetween(path, '/', part); }
    forall part ensures SafePart(part) <==> PartDemands(part) { PartsAreSafe(part); }
    forall c ensures c as int >= 32 && c !in "\\:*?<>|\"" <==>
      c >= ' ' && c != '\\' && c != ':' && c != '*' && c != '?' && c != '<' && c != '>' && c != '|' && c != '"'
    {
    }
  }

  lemma {:induction false} OnePart(s: string, c: char)
    ensures |SplitOn(s, c)| == 1 <==> c !in s
    decreases |s|
  {
    if s != "" {
      OnePart(s[1..], c);
      assert s == [s[0]] + s[1..];
    }
  }

  lemma {:induction false} PartsBehind(front: string, c: char, rest: string)
    requires c !in front
    ensures |SplitOn(front + [c] + rest, c)| == 1 + |SplitOn(rest, c)|
    decreases |front|
  {
    var s := front + [c] + rest;
    if front == "" {
      assert s[0] == c && s[1..] == rest;
    } else {
      assert s[0] == front[0] && s[1..] == front[1..] + [c] + rest;
      PartsBehind(front[1..], c, rest);
    }
  }

  lemma {:induction false} TextPaths(path: string)
    ensures LicenseTextPath(path) <==>
      PathDemands(path) && (path == "LICENSE" || exists name :: '/' !in name && path == "licenses/" + name)
  {
    hide SafeRelative, PathDemands, SplitOn;
    PathsAreSafe(path);
    if StartsWith(path, "licenses/") {
      var name := path[9..];
      assert path == "licenses" + ['/'] + name == "licenses/" + name;
      PartsBehind("licenses", '/', name);
      OnePart(name, '/');
      assert forall other: string :: path == "licenses/" + other ==> other == path[9..];
    }
    if name :| '/' !in name && path == "licenses/" + name {
      assert path[..9] == "licenses/";
    }
  }

  lemma {:induction false} HexTexts(s: string, n: nat)
    ensures Hex(s, n) <==> IsHexText(s, n)
  {
    forall c: char ensures IsDigit(c) || 'a' <= c <= 'f' <==> c in "0123456789abcdef" {
    }
  }

  lemma {:induction false} RecordsWellFormed(l: License)
    ensures WellFormedLicense(l) <==> RecordDemands(l)
  {
    hide Hex, IsHexText, PathDemands, LicenseTextPath, SafeRelative;
    TextPaths(l.textPath);
    HexTexts(l.textSha256, 64);
    var fields := [l.name, l.version, l.license];
    assert fields[0] == l.name && fields[1] == l.version && fields[2] == l.license;
    assert forall field <- fields :: field == l.name || field == l.version || field == l.license;
  }

  // ---- Keys ----

  ghost predicate KeysDiffer<T(!new)>(xs: seq<T>, key: T -> Option<string>) {
    forall i: nat, j: nat :: i < j < |xs| && key(xs[i]).Some? ==> key(xs[i]) != key(xs[j])
  }

  ghost predicate KeysAre<T(!new)>(xs: seq<T>, key: T -> Option<string>, keys: set<string>) {
    forall k :: k in keys <==> IsKey(xs, key, k)
  }

  ghost predicate IsKey<T(!new)>(xs: seq<T>, key: T -> Option<string>, k: string) {
    exists i: nat :: i < |xs| && key(xs[i]) == Some(k)
  }

  lemma {:induction false} CountsTwice<T(!new)>(xs: seq<T>, key: T -> Option<string>, k: string)
    requires KeysDiffer(xs, key)
    ensures Count(xs, key, k) <= 1
    decreases |xs|
  {
    if xs != [] {
      var n := |xs| - 1;
      CountsTwice(xs[..n], key, k);
      CountedKeyExists(xs[..n], key, k);
    }
  }

  /** Counting each wanted key once is: no key twice, and the keys are those wanted. */
  lemma {:induction false} OnceExactly<T(!new)>(xs: seq<T>, key: T -> Option<string>, keys: set<string>)
    ensures EachOnce(xs, key, keys) <==> KeysDiffer(xs, key) && KeysAre(xs, key, keys)
  {
    forall k ensures Count(xs, key, k) > 0 <==> IsKey(xs, key, k) { CountedKeyExists(xs, key, k); }
    if EachOnce(xs, key, keys) {
      forall i: nat, j: nat | i < j < |xs| && key(xs[i]).Some? ensures key(xs[i]) != key(xs[j]) {
        var k := key(xs[i]).value;
        if key(xs[i]) == key(xs[j]) { TwiceCounts(xs, key, k, i, j); }
        assert Count(xs, key, k) <= 1;
      }
      forall k ensures k in keys <==> IsKey(xs, key, k) { assert Count(xs, key, k) == if k in keys then 1 else 0; }
    }
    if KeysDiffer(xs, key) && KeysAre(xs, key, keys) {
      forall k ensures Count(xs, key, k) == if k in keys then 1 else 0 { CountsTwice(xs, key, k); }
    }
  }

  lemma {:induction false} KeyOfMember<T(!new)>(xs: seq<T>, key: T -> Option<string>, k: string)
    ensures IsKey(xs, key, k) <==> exists x <- xs :: key(x) == Some(k)
  {
    if x :| x in xs && key(x) == Some(k) {
      var i :| 0 <= i < |xs| && xs[i] == x;
    }
  }

  // ---- The inventory ----

  ghost predicate ComponentDemands(c: Component, e: Evidence) {
    && RecordDemands(c.base)
    && c.base.textPath in e.textHashes && c.base.textSha256 == e.textHashes[c.base.textPath]
    && (c.cyclonedxRef == None <==> c.spdxId == None)
  }

  /** No id and no reference of a software bill stands twice, and the references are exactly those of the two bills. */
  ghost predicate ReferenceDemands(components: seq<Component>, e: Evidence) {
    && (forall i: nat, j: nat :: i < j < |components| ==> DifferentComponents(components[i], components[j]))
    && (forall r :: r in e.cdxRefs <==> exists c <- components :: c.cyclonedxRef == Some(r))
    && (forall r :: r in e.spdxRefs <==> exists c <- components :: c.spdxId == Some(r))
  }

  predicate DifferentComponents(c: Component, d: Component) {
    && c.base.id != d.base.id
    && (c.cyclonedxRef.Some? ==> c.cyclonedxRef != d.cyclonedxRef)
    && (c.spdxId.Some? ==> c.spdxId != d.spdxId)
  }

  /** A file entry names components that are listed, one at least and none twice. */
  ghost predicate FileDemands(f: FileItem, listed: string -> bool) {
    && PathDemands(f.path)
    && |f.componentIds| > 0
    && (forall id <- f.componentIds :: listed(id))
    && forall i: nat, j: nat :: i < j < |f.componentIds| ==> f.componentIds[i] != f.componentIds[j]
  }

  ghost predicate PathsDemand(files: seq<FileItem>, bundle: set<string>) {
    && (forall i: nat, j: nat :: i < j < |files| ==> files[i].path != files[j].path)
    && forall path :: path in bundle <==> exists f <- files :: f.path == path
  }

  ghost predicate Lists(components: seq<Component>, id: string) { exists c <- components :: c.base.id == id }

  ghost predicate InventoryDemands(inv: Inventory, e: Evidence) {
    && inv.schemaVersion == "nac.m365-current-state-read-driver-license-inventory/v0.1"
    && |inv.components| > 0 && |inv.files| > 0
    && (forall c <- inv.components :: ComponentDemands(c, e))
    && ReferenceDemands(inv.components, e)
    && (forall f <- inv.files :: FileDemands(f, id => Lists(inv.components, id)))
    && PathsDemand(inv.files, e.bundle)
    && (forall c <- inv.components :: exists f <- inv.files :: c.base.id in f.componentIds)
    && (exists c <- inv.components ::
          c.base.id == "nac" && c.base.license == "AGPL-3.0-or-later" && c.base.textPath == "LICENSE")
  }

  lemma {:induction false} ComponentsDemand(components: seq<Component>, e: Evidence)
    ensures ComponentsAccepted(components, e)
       <==> (forall c <- components :: ComponentDemands(c, e)) && ReferenceDemands(components, e)
  {
    hide WellFormedLicense, RecordDemands, EachOnce;
    forall c: Component ensures ComponentAccepted(c, e) <==> ComponentDemands(c, e) { RecordsWellFormed(c.base); }
    OnceExactly(components, ID, Ids(components));
    OnceExactly(components, CDX, e.cdxRefs);
    OnceExactly(components, SPDX, e.spdxRefs);
    ReferencesDiffer(components, e);
  }

  lemma {:induction false} ReferencesDiffer(components: seq<Component>, e: Evidence)
    ensures ReferenceDemands(components, e)
       <==> && KeysDiffer(components, ID) && KeysAre(components, ID, Ids(components))
            && KeysDiffer(components, CDX) && KeysAre(components, CDX, e.cdxRefs)
            && KeysDiffer(components, SPDX) && KeysAre(components, SPDX, e.spdxRefs)
  {
    AllDiffer(components);
    hide KeysDiffer, DifferentComponents;
    forall k
      ensures IsKey(components, ID, k) <==> k in Ids(components)
      ensures IsKey(components, CDX, k) <==> exists c <- components :: c.cyclonedxRef == Some(k)
      ensures IsKey(components, SPDX, k) <==> exists c <- components :: c.spdxId == Some(k)
    {
      KeyOfMember(components, ID, k);
      KeyOfMember(components, CDX, k);
      KeyOfMember(components, SPDX, k);
      hide IsKey;
      assert forall c: Component :: ID(c) == Some(c.base.id) && CDX(c) == c.cyclonedxRef && SPDX(c) == c.spdxId;
    }
  }

  lemma {:induction false} AllDiffer(components: seq<Component>)
    ensures KeysDiffer(components, ID) && KeysDiffer(components, CDX) && KeysDiffer(components, SPDX)
       <==> forall i: nat, j: nat :: i < j < |components| ==> DifferentComponents(components[i], components[j])
  {
  }

  lemma {:induction false} PathsOnce(files: seq<FileItem>, bundle: set<string>)
    ensures EachOnce(files, PATH, bundle) <==> PathsDemand(files, bundle)
  {
    hide EachOnce;
    OnceExactly(files, PATH, bundle);
    forall p ensures IsKey(files, PATH, p) <==> exists f <- files :: f.path == p { KeyOfMember(files, PATH, p); }
  }

  lemma {:induction false} FileEntries(f: FileItem, known: set<string>, listed: string -> bool)
    requires forall id :: id in known <==> listed(id)
    ensures FileAccepted(f, known) <==> FileDemands(f, listed)
  {
    PathsAreSafe(f.path);
    hide SafeRelative, PathDemands;
  }

  /** The inventory gate accepts exactly what is written out here. */
  lemma {:induction false} InventoryExactly(inv: Inventory, e: Evidence)
    ensures InventoryAccepted(inv, e) <==> InventoryDemands(inv, e)
  {
    hide EachOnce, ComponentAccepted, ComponentDemands, ReferenceDemands, FileAccepted, FileDemands, PathsDemand;
    ComponentsDemand(inv.components, e);
    PathsOnce(inv.files, e.bundle);
    var known := Ids(inv.components);
    forall f: FileItem ensures FileAccepted(f, known) <==> FileDemands(f, id => Lists(inv.components, id)) {
      FileEntries(f, known, id => Lists(inv.components, id));
    }
    forall f: FileItem | FileAccepted(f, known) ensures forall id <- f.componentIds :: id in known { NamesKnown(f, known); }
    AllUsed(inv.files, inv.components);
  }

  lemma {:induction false} NamesKnown(f: FileItem, known: set<string>)
    requires FileAccepted(f, known)
    ensures forall id <- f.componentIds :: id in known
  {
  }

  lemma {:induction false} AllUsed(files: seq<FileItem>, components: seq<Component>)
    ensures (forall f <- files, id <- f.componentIds :: id in Ids(components)) ==>
      (Used(files) == Ids(components) <==> forall c <- components :: exists f <- files :: c.base.id in f.componentIds)
  {
    if Used(files) == Ids(components) {
      forall c <- components ensures exists f <- files :: c.base.id in f.componentIds {
        assert c.base.id in Used(files);
      }
    }
  }

  // ---- The reviewed catalogue ----

  /** A catalogue entry has a text and a source with real digests; the product itself comes from the bound tree. */
  ghost predicate EntryDemands(d: CatalogComponent, uriAllowed: string -> bool) {
    && RecordDemands(d.base)
    && (exists c <- d.base.textSha256 :: c != '0')
    && (d.base.id == "nac" ==>
          && d.sourceUri == "git:HEAD" && d.sourceSha256 == "BOUND_SOURCE_TREE"
          && d.base.license == "AGPL-3.0-or-later" && d.base.textPath == "LICENSE")
    && (d.base.id != "nac" ==>
          && |d.sourceUri| <= 240 && uriAllowed(d.sourceUri)
          && IsHexText(d.sourceSha256, 64) && (exists c <- d.sourceSha256 :: c != '0')
          && forall word <- ["NOASSERTION", "UNKNOWN", "PENDING", "TBD", "NONE", "N/A"] :: Upper(d.base.license) != word)
  }

  ghost predicate Approves(components: seq<CatalogComponent>, id: string) { exists d <- components :: d.base.id == id }

  /** Catalogue and inventory list the same records, each id once. */
  ghost predicate SameRecords(catalog: seq<CatalogComponent>, components: seq<Component>) {
    && IdsOnce(catalog)
    && (forall i: nat, j: nat :: i < j < |components| ==> components[i].base.id != components[j].base.id)
    && (forall c <- components :: InCatalog(catalog, c.base))
    && (forall d <- catalog :: InInventory(components, d.base))
  }

  ghost predicate IdsOnce(catalog: seq<CatalogComponent>) {
    forall i: nat, j: nat :: i < j < |catalog| ==> catalog[i].base.id != catalog[j].base.id
  }

  ghost predicate InCatalog(catalog: seq<CatalogComponent>, l: License) { exists d <- catalog :: d.base == l }

  ghost predicate InInventory(components: seq<Component>, l: License) { exists c <- components :: c.base == l }

  /** Two entries of one path name the same components. */
  ghost predicate SameNames(f: FileItem, g: FileItem) {
    f.path == g.path ==> forall id :: id in f.componentIds <==> id in g.componentIds
  }

  ghost predicate CatalogDemands(
    cat: Catalog, inv: Inventory, bundle: set<string>, expectedTree: string, reviewedPreparation: Option<string>,
    uriAllowed: string -> bool)
  {
    && cat.schemaVersion == "nac.m365-current-state-read-driver-license-catalog/v0.1"
    && inv.schemaVersion == "nac.m365-current-state-read-driver-license-inventory/v0.1"
    && cat.status == "APPROVED" && reviewedPreparation == Some(cat.reviewedPreparation)
    && |cat.components| > 0 && |cat.files| > 0 && IsHexText(expectedTree, 40)
    && (forall d <- cat.components :: EntryDemands(d, uriAllowed))
    && SameRecords(cat.components, inv.components)
    && (forall g <- cat.files :: FileDemands(g, id => Approves(cat.components, id)))
    && PathsDemand(cat.files, bundle) && PathsDemand(inv.files, bundle)
    && (forall f <- inv.files, g <- cat.files :: SameNames(f, g))
    && (forall f <- inv.files, i: nat, j: nat :: i < j < |f.componentIds| ==> f.componentIds[i] != f.componentIds[j])
  }

  lemma {:induction false} NotAllZero(s: string)
    requires |s| == 64
    ensures s != ZERO_HASH <==> exists c <- s :: c != '0'
  {
    if s != ZERO_HASH {
      var k :| 0 <= k < 64 && s[k] != ZERO_HASH[k];
      assert s[k] in s;
    }
  }

  lemma {:induction false} EntriesDemand(d: CatalogComponent, uriAllowed: string -> bool)
    ensures CatalogComponentAccepted(d, uriAllowed) <==> EntryDemands(d, uriAllowed)
  {
    hide WellFormedLicense, RecordDemands, Upper, ZERO_HASH;
    RecordsWellFormed(d.base);
    HexTexts(d.sourceSha256, 64);
    DigestLength(d.base);
    if |d.base.textSha256| == 64 { NotAllZero(d.base.textSha256); }
    if |d.sourceSha256| == 64 { NotAllZero(d.sourceSha256); }
    var words := ["NOASSERTION", "UNKNOWN", "PENDING", "TBD", "NONE", "N/A"];
    forall word: string ensures word in words <==> word in UNKNOWN_LICENSES {
      assert words == ["NOASSERTION", "UNKNOWN", "PENDING", "TBD", "NONE", "N/A"];
    }
  }

  lemma {:induction false} DigestLength(l: License)
    ensures RecordDemands(l) ==> |l.textSha256| == 64
  {
  }

  lemma {:induction false} RecordsMatch(catalog: seq<CatalogComponent>, components: seq<Component>)
    ensures SameRecords(catalog, components)
       <==> EachOnce(catalog, CATALOG_ID, CatalogIds(catalog)) && ComponentsApproved(catalog, components)
  {
    hide EachOnce, KeysDiffer, KeysAre;
    OnceExactly(catalog, CATALOG_ID, CatalogIds(catalog));
    OnceExactly(components, ID, CatalogIds(catalog));
    CatalogKeys(catalog);
    IdsDiffer(catalog, components);
    IdKeys(components, CatalogIds(catalog));
    hide IdsOnce;
    if IdsOnce(catalog) && forall c <- components :: InCatalog(catalog, c.base) {
      IdsCovered(catalog, components);
    }
  }

  lemma {:induction false} CatalogKeys(catalog: seq<CatalogComponent>)
    ensures KeysAre(catalog, CATALOG_ID, CatalogIds(catalog))
  {
    forall k ensures IsKey(catalog, CATALOG_ID, k) <==> k in CatalogIds(catalog) {
      KeyOfMember(catalog, CATALOG_ID, k);
      hide IsKey;
    }
  }

  lemma {:induction false} IdsDiffer(catalog: seq<CatalogComponent>, components: seq<Component>)
    ensures KeysDiffer(catalog, CATALOG_ID) <==> IdsOnce(catalog)
    ensures KeysDiffer(components, ID) <==>
      forall i: nat, j: nat :: i < j < |components| ==> components[i].base.id != components[j].base.id
  {
  }

  lemma {:induction false} IdKeys(components: seq<Component>, keys: set<string>)
    ensures KeysAre(components, ID, keys) <==> keys == Ids(components)
  {
    forall k ensures IsKey(components, ID, k) <==> k in Ids(components) {
      KeyOfMember(components, ID, k);
      hide IsKey;
    }
    hide IsKey;
    assert KeysAre(components, ID, keys) ==> forall k :: k in keys <==> k in Ids(components);
  }

  /** Where no id stands twice, the ids of the catalogue are all there exactly when its records are. */
  lemma {:induction false} IdsCovered(catalog: seq<CatalogComponent>, components: seq<Component>)
    requires IdsOnce(catalog) && forall c <- components :: InCatalog(catalog, c.base)
    ensures CatalogIds(catalog) == Ids(components) <==> forall d <- catalog :: InInventory(components, d.base)
  {
    hide IdsOnce, InCatalog, InInventory;
    forall d <- catalog ensures d.base.id in Ids(components) <==> InInventory(components, d.base) {
      EntryListed(catalog, components, d);
    }
    forall id | id in Ids(components) ensures id in CatalogIds(catalog) {
      var c :| c in components && c.base.id == id;
      RecordId(catalog, c.base);
    }
  }

  lemma {:induction false} RecordId(catalog: seq<CatalogComponent>, l: License)
    requires InCatalog(catalog, l)
    ensures l.id in CatalogIds(catalog)
  {
  }

  lemma {:induction false} EntryListed(catalog: seq<CatalogComponent>, components: seq<Component>, d: CatalogComponent)
    requires IdsOnce(catalog) && d in catalog && forall c <- components :: InCatalog(catalog, c.base)
    ensures d.base.id in Ids(components) <==> InInventory(components, d.base)
  {
    hide IdsOnce;
    if c :| c in components && c.base.id == d.base.id {
      assert InCatalog(catalog, c.base);
      var other :| other in catalog && other.base == c.base;
      SameEntry(catalog, d, other);
    }
  }

  lemma {:induction false} SameEntry(catalog: seq<CatalogComponent>, a: CatalogComponent, b: CatalogComponent)
    requires IdsOnce(catalog)
    requires a in catalog && b in catalog && a.base.id == b.base.id
    ensures a == b
  {
    var i: nat :| i < |catalog| && catalog[i] == a;
    var j: nat :| j < |catalog| && catalog[j] == b;
    assert !(i < j) && !(j < i);
  }

  lemma {:induction false} FilesMatch(catalog: seq<FileItem>, files: seq<FileItem>, known: set<string>, bundle: set<string>)
    ensures FilesApproved(catalog, files, known, bundle)
       <==> && (forall g <- catalog :: FileAccepted(g, known))
            && PathsDemand(catalog, bundle) && PathsDemand(files, bundle)
            && (forall f <- files, g <- catalog :: SameNames(f, g))
            && (forall f <- files :: NoRepeats(f.componentIds))
  {
    hide EachOnce, FileAccepted, NoRepeats, SameNames;
    PathsOnce(catalog, bundle);
    PathsOnce(files, bundle);
    if PathsDemand(catalog, bundle) && PathsDemand(files, bundle) {
      forall f <- files
        ensures (forall g <- catalog :: SameNames(f, g))
           <==> exists g <- catalog :: g.path == f.path && Members(g) == Members(f)
      {
        NamesOfPath(catalog, f, bundle);
      }
    }
  }

  lemma {:induction false} NamesOfPath(catalog: seq<FileItem>, f: FileItem, bundle: set<string>)
    requires PathsDemand(catalog, bundle) && f.path in bundle
    ensures (forall g <- catalog :: SameNames(f, g)) <==> exists g <- catalog :: g.path == f.path && Members(g) == Members(f)
  {
    var g :| g in catalog && g.path == f.path;
    forall other <- catalog | other.path == f.path ensures other == g { SamePath(catalog, bundle, g, other); }
    assert SameNames(f, g) <==> Members(g) == Members(f) by { SameMemberNames(f, g); }
  }

  lemma {:induction false} SameMemberNames(f: FileItem, g: FileItem)
    requires f.path == g.path
    ensures SameNames(f, g) <==> Members(g) == Members(f)
  {
    if Members(g) == Members(f) {
      forall id ensures id in f.componentIds <==> id in g.componentIds {
        assert id in f.componentIds <==> id in Members(f);
        assert id in g.componentIds <==> id in Members(g);
      }
    }
  }

  lemma {:induction false} SamePath(files: seq<FileItem>, bundle: set<string>, a: FileItem, b: FileItem)
    requires PathsDemand(files, bundle) && a in files && b in files && a.path == b.path
    ensures a == b
  {
    var i: nat :| i < |files| && files[i] == a;
    var j: nat :| j < |files| && files[j] == b;
    assert !(i < j) && !(j < i);
  }

  /** The review gate approves exactly what is written out here. */
  lemma {:induction false} CatalogExactly(
    cat: Catalog, inv: Inventory, bundle: set<string>, expectedTree: string, reviewedPreparation: Option<string>,
    uriAllowed: string -> bool)
    ensures CatalogApproves(cat, inv, bundle, expectedTree, reviewedPreparation, uriAllowed)
       <==> CatalogDemands(cat, inv, bundle, expectedTree, reviewedPreparation, uriAllowed)
  {
    hide EachOnce, CatalogComponentAccepted, EntryDemands, ComponentsApproved, SameRecords, FilesApproved, FileAccepted;
    hide FileDemands, PathsDemand, SameNames, Hex, IsHexText;
    var known := CatalogIds(cat.components);
    HexTexts(expectedTree, 40);
    forall d: CatalogComponent ensures CatalogComponentAccepted(d, uriAllowed) <==> EntryDemands(d, uriAllowed) {
      EntriesDemand(d, uriAllowed);
    }
    RecordsMatch(cat.components, inv.components);
    FilesMatch(cat.files, inv.files, known, bundle);
    forall g: FileItem ensures FileAccepted(g, known) <==> FileDemands(g, id => Approves(cat.components, id)) {
      FileEntries(g, known, id => Approves(cat.components, id));
    }
  }
}
