/** scripts/build_m365_current_state_read_driver.py: license inventory and reviewed catalog acceptance. */
module LicenseInventory {
  import opened Options
  import opened Text

  const LICENSE_SCHEMA := "nac.m365-current-state-read-driver-license-inventory/v0.1"
  const LICENSE_CATALOG_SCHEMA := "nac.m365-current-state-read-driver-license-catalog/v0.1"

  datatype License = License(id: string, name: string, version: string, license: string, textPath: string, textSha256: string)
  datatype Component = Component(base: License, cyclonedxRef: Option<string>, spdxId: Option<string>)
  datatype CatalogComponent = CatalogComponent(base: License, sourceUri: string, sourceSha256: string)
  datatype FileItem = FileItem(path: string, componentIds: seq<string>)
  datatype Inventory = Inventory(schemaVersion: string, components: seq<Component>, files: seq<FileItem>)
  datatype Catalog = Catalog(
    schemaVersion: string, status: string, reviewedPreparation: string,
    components: seq<CatalogComponent>, files: seq<FileItem>)

  /** What the inventory is checked against: the bundle, the two SBOM reference sets, the license texts. */
  datatype Evidence = Evidence(
    bundle: set<string>, cdxRefs: set<string>, spdxRefs: set<string>, textHashes: map<string, string>)

  datatype Blocked =
    | InventoryInvalid | InventoryIncomplete | TextMismatch | SbomReference | NacLicenseBinding | Provenance
  datatype Verdict = Accepted | Rejected(code: Blocked)

  // ---- Text rules ----

  predicate SafeComponent(id: string) {
    1 <= |id| <= 120 && forall c <- id :: IsAlphanumeric(c) || c == '.' || c == '_' || c == '-'
  }

  predicate Hex(s: string, length: nat) {
    |s| == length && forall c <- s :: IsDigit(c) || 'a' <= c <= 'f'
  }

  const ZERO_HASH: string := seq(64, _ => '0')
  const RESERVED_NAMES: set<string> := {
    "CON", "PRN", "AUX", "NUL",
    "COM1", "COM2", "COM3", "COM4", "COM5", "COM6", "COM7", "COM8", "COM9",
    "LPT1", "LPT2", "LPT3", "LPT4", "LPT5", "LPT6", "LPT7", "LPT8", "LPT9"}

  predicate SafePart(part: string) {
    && part !in {"", ".", ".."}
    && part[|part| - 1] != ' ' && part[|part| - 1] != '.'
    && Upper(SplitOn(part, '.')[0]) !in RESERVED_NAMES
  }

  predicate SafeRelative(value: string) {
    && 1 <= |value| <= 240
    && (forall c <- value :: c as int >= 32 && c !in "\\:*?<>|\"")
    && (forall part <- SplitOn(value, '/') :: SafePart(part))
  }

  predicate PlainField(s: string) {
    1 <= |s| <= 160 && forall c <- s :: c as int >= 32
  }

  predicate LicenseTextPath(path: string) {
    SafeRelative(path) && (path == "LICENSE" || (StartsWith(path, "licenses/") && |SplitOn(path, '/')| == 2))
  }

  predicate FieldsFit(l: License) {
    && SafeComponent(l.id)
    && PlainField(l.name) && PlainField(l.version) && PlainField(l.license)
    && LicenseTextPath(l.textPath)
  }

  predicate WellFormedLicense(l: License) { FieldsFit(l) && Hex(l.textSha256, 64) }

  // ---- Counting keys ----

  /** How many elements have the key `k`; elements without a key never count. */
  ghost function Count<T>(xs: seq<T>, key: T -> Option<string>, k: string): nat {
    if xs == [] then 0
    else Count(xs[..|xs| - 1], key, k) + Has(xs[|xs| - 1], key, k)
  }

  ghost function Has<T>(x: T, key: T -> Option<string>, k: string): nat {
    if key(x) == Some(k) then 1 else 0
  }

  /** Every member of `keys` is the key of exactly one element, and there are no other keys. */
  ghost predicate EachOnce<T(!new)>(xs: seq<T>, key: T -> Option<string>, keys: set<string>) {
    forall k :: Count(xs, key, k) == if k in keys then 1 else 0
  }

  lemma {:induction false} CountOfAppend<T>(xs: seq<T>, x: T, key: T -> Option<string>, k: string)
    ensures Count(xs + [x], key, k) == Count(xs, key, k) + Has(x, key, k)
  {
    assert (xs + [x])[..|xs|] == xs;
  }

  lemma {:induction false} CountOfConcat<T>(xs: seq<T>, ys: seq<T>, key: T -> Option<string>, k: string)
    ensures Count(xs + ys, key, k) == Count(xs, key, k) + Count(ys, key, k)
    decreases |ys|
  {
    if ys == [] {
      assert xs + ys == xs;
    } else {
      var n := |ys| - 1;
      var front := xs + ys[..n];
      CountOfConcat(xs, ys[..n], key, k);
      assert xs + ys == front + [ys[n]];
      CountOfAppend(front, ys[n], key, k);
    }
  }

  lemma {:induction false} CountOfPrefix<T>(xs: seq<T>, i: nat, key: T -> Option<string>, k: string)
    requires i <= |xs|
    ensures Count(xs[..i], key, k) <= Count(xs, key, k)
  {
    assert xs == xs[..i] + xs[i..];
    CountOfConcat(xs[..i], xs[i..], key, k);
  }

  lemma {:induction false} CountWithout<T>(ys: seq<T>, j: nat, key: T -> Option<string>, k: string)
    requires j < |ys|
    ensures Count(ys, key, k) == Count(ys[..j] + ys[j + 1..], key, k) + Has(ys[j], key, k)
  {
    var front, back := ys[..j], ys[j + 1..];
    var upTo := front + [ys[j]];
    assert ys == upTo + back;
    CountOfConcat(upTo, back, key, k);
    CountOfAppend(front, ys[j], key, k);
    CountOfConcat(front, back, key, k);
  }

  /** The count of a key does not depend on the order of the elements. */
  lemma {:induction false} CountIgnoresOrder<T>(xs: seq<T>, ys: seq<T>, key: T -> Option<string>, k: string)
    requires multiset(xs) == multiset(ys)
    ensures Count(xs, key, k) == Count(ys, key, k)
    decreases |xs|
  {
    if xs == [] {
      assert |multiset(ys)| == 0;
    } else {
      var n := |xs| - 1;
      var x := xs[n];
      var j := Occurrence(xs, ys, n);
      CountWithout(ys, j, key, k);
      CountIgnoresOrder(xs[..n], ys[..j] + ys[j + 1..], key, k);
    }
  }

  lemma {:induction false} Occurrence<T>(xs: seq<T>, ys: seq<T>, n: nat) returns (j: nat)
    requires multiset(xs) == multiset(ys) && |xs| == n + 1
    ensures j < |ys| && ys[j] == xs[n]
    ensures multiset(xs[..n]) == multiset(ys[..j] + ys[j + 1..])
  {
    assert xs[n] in multiset(ys);
    j :| 0 <= j < |ys| && ys[j] == xs[n];
    assert xs == xs[..n] + [xs[n]];
    assert ys == ys[..j] + [ys[j]] + ys[j + 1..];
    assert multiset(xs[..n]) == multiset(xs) - multiset{xs[n]};
    assert multiset(ys[..j] + ys[j + 1..]) == multiset(ys) - multiset{ys[j]};
  }

  lemma {:induction false} CountedKeyExists<T>(xs: seq<T>, key: T -> Option<string>, k: string)
    ensures Count(xs, key, k) > 0 <==> exists i :: 0 <= i < |xs| && key(xs[i]) == Some(k)
    decreases |xs|
  {
    if xs != [] {
      CountedKeyExists(xs[..|xs| - 1], key, k);
    }
  }

  lemma {:induction false} TwiceCounts<T>(xs: seq<T>, key: T -> Option<string>, k: string, i: nat, j: nat)
    requires i < j < |xs| && key(xs[i]) == key(xs[j]) == Some(k)
    ensures Count(xs, key, k) >= 2
  {
    CountedKeyExists(xs[..j], key, k);
    assert xs[..j][i] == xs[i];
    assert xs[..j + 1] == xs[..j] + [xs[j]];
    CountOfAppend(xs[..j], xs[j], key, k);
    CountOfPrefix(xs, j + 1, key, k);
  }

  // ---- What acceptance means ----

  const ID: Component -> Option<string> := (c: Component) => Some(c.base.id)
  const CDX: Component -> Option<string> := (c: Component) => c.cyclonedxRef
  const SPDX: Component -> Option<string> := (c: Component) => c.spdxId
  const PATH: FileItem -> Option<string> := (f: FileItem) => Some(f.path)
  const CATALOG_ID: CatalogComponent -> Option<string> := (c: CatalogComponent) => Some(c.base.id)

  function Ids(components: seq<Component>): set<string> {
    set c <- components :: c.base.id
  }

  function Used(files: seq<FileItem>): set<string> {
    set f <- files, id <- f.componentIds :: id
  }

  predicate NoRepeats(ids: seq<string>) {
    forall i, j :: 0 <= i < j < |ids| ==> ids[i] != ids[j]
  }

  predicate ComponentAccepted(c: Component, e: Evidence) {
    && WellFormedLicense(c.base)
    && c.base.textPath in e.textHashes && e.textHashes[c.base.textPath] == c.base.textSha256
    && (c.cyclonedxRef.Some? <==> c.spdxId.Some?)
  }

  predicate FileAccepted(f: FileItem, known: set<string>) {
    && SafeRelative(f.path)
    && f.componentIds != [] && (forall id <- f.componentIds :: id in known)
    && NoRepeats(f.componentIds)
  }

  predicate BindsNac(c: Component) {
    c.base.id == "nac" && c.base.license == "AGPL-3.0-or-later" && c.base.textPath == "LICENSE"
  }

  /** Component ids are unique and the referencing components biject with both SBOM reference sets. */
  ghost predicate ComponentsAccepted(components: seq<Component>, e: Evidence) {
    && (forall c <- components :: ComponentAccepted(c, e))
    && EachOnce(components, ID, Ids(components))
    && EachOnce(components, CDX, e.cdxRefs)
    && EachOnce(components, SPDX, e.spdxRefs)
  }

  /** The files are the bundle's, each once, and use every known component. */
  ghost predicate FilesAccepted(files: seq<FileItem>, known: set<string>, bundle: set<string>) {
    && (forall f <- files :: FileAccepted(f, known))
    && EachOnce(files, PATH, bundle)
    && Used(files) == known
  }

  ghost predicate InventoryAccepted(inv: Inventory, e: Evidence) {
    && inv.schemaVersion == LICENSE_SCHEMA
    && inv.components != [] && inv.files != []
    && ComponentsAccepted(inv.components, e)
    && FilesAccepted(inv.files, Ids(inv.components), e.bundle)
    && (exists c <- inv.components :: BindsNac(c))
  }

  /** The verdict does not depend on the order in which components and files are listed. */
  lemma {:induction false} InventoryIgnoresOrder(a: Inventory, b: Inventory, e: Evidence)
    requires a.schemaVersion == b.schemaVersion
    requires multiset(a.components) == multiset(b.components) && multiset(a.files) == multiset(b.files)
    ensures InventoryAccepted(a, e) <==> InventoryAccepted(b, e)
  {
    SameMembers(a.components, b.components);
    SameMembers(a.files, b.files);
    ComponentsIgnoreOrder(a.components, b.components, e);
    FilesIgnoreOrder(a.files, b.files, Ids(a.components), e.bundle);
  }

  lemma {:induction false} ComponentsIgnoreOrder(a: seq<Component>, b: seq<Component>, e: Evidence)
    requires multiset(a) == multiset(b)
    ensures Ids(a) == Ids(b)
    ensures ComponentsAccepted(a, e) <==> ComponentsAccepted(b, e)
  {
    SameMembers(a, b);
    assert Ids(a) == Ids(b);
    OnceIgnoresOrder(a, b, ID, Ids(a));
    OnceIgnoresOrder(a, b, CDX, e.cdxRefs);
    OnceIgnoresOrder(a, b, SPDX, e.spdxRefs);
  }

  lemma {:induction false} FilesIgnoreOrder(a: seq<FileItem>, b: seq<FileItem>, known: set<string>, bundle: set<string>)
    requires multiset(a) == multiset(b)
    ensures FilesAccepted(a, known, bundle) <==> FilesAccepted(b, known, bundle)
  {
    SameMembers(a, b);
    assert Used(a) == Used(b);
    OnceIgnoresOrder(a, b, PATH, bundle);
  }

  lemma {:induction false} OnceIgnoresOrder<T(!new)>(a: seq<T>, b: seq<T>, key: T -> Option<string>, keys: set<string>)
    requires multiset(a) == multiset(b)
    ensures EachOnce(a, key, keys) <==> EachOnce(b, key, keys)
  {
    forall k ensures Count(a, key, k) == Count(b, key, k) {
      CountIgnoresOrder(a, b, key, k);
    }
  }

  lemma {:induction false} SameMembers<T>(xs: seq<T>, ys: seq<T>)
    requires multiset(xs) == multiset(ys)
    ensures forall x :: x in xs <==> x in ys
    ensures xs == [] <==> ys == []
  {
    forall x ensures x in xs <==> x in ys {
      assert x in xs <==> x in multiset(xs);
      assert x in ys <==> x in multiset(ys);
    }
    assert |multiset(xs)| == |xs| && |multiset(ys)| == |ys|;
  }

  // ---- What a refusal means ----

  predicate Seen<T(!new)>(xs: seq<T>, i: nat, key: T -> Option<string>)
    requires i < |xs|
  {
    exists j :: 0 <= j < i && key(xs[i]).Some? && key(xs[j]) == key(xs[i])
  }

  /** What is wrong with the `i`-th component, after all in front of it. */
  function ComponentFault(components: seq<Component>, i: nat, e: Evidence): Option<Blocked>
    requires i < |components|
  {
    var c := components[i];
    if Seen(components, i, ID) || !FieldsFit(c.base) then Some(InventoryInvalid)
    else if !TextFits(c, e) then Some(TextMismatch)
    else if !ReferencesFit(components, i, e) then Some(SbomReference)
    else None
  }

  predicate TextFits(c: Component, e: Evidence) {
    && Hex(c.base.textSha256, 64)
    && c.base.textPath in e.textHashes && e.textHashes[c.base.textPath] == c.base.textSha256
  }

  predicate ReferencesFit(components: seq<Component>, i: nat, e: Evidence)
    requires i < |components|
  {
    var c := components[i];
    && (c.cyclonedxRef.Some? <==> c.spdxId.Some?)
    && (c.cyclonedxRef.Some? ==> c.cyclonedxRef.value in e.cdxRefs && !Seen(components, i, CDX))
    && (c.spdxId.Some? ==> c.spdxId.value in e.spdxRefs && !Seen(components, i, SPDX))
  }

  predicate FileFault(files: seq<FileItem>, i: nat, known: set<string>)
    requires i < |files|
  {
    Seen(files, i, PATH) || !FileAccepted(files[i], known)
  }

  /** The first component with a fault has this one. */
  ghost predicate FirstComponentFault(components: seq<Component>, e: Evidence, i: nat, code: Blocked) {
    && i < |components| && ComponentFault(components, i, e) == Some(code)
    && forall j: nat :: j < i ==> ComponentFault(components, j, e) == None
  }

  ghost predicate SomeComponentFault(components: seq<Component>, e: Evidence, code: Blocked) {
    exists i: nat :: FirstComponentFault(components, e, i, code)
  }

  ghost predicate FilesFit(files: seq<FileItem>, known: set<string>) {
    forall i: nat :: i < |files| ==> !FileFault(files, i, known)
  }

  /** Some reference of the software bill belongs to no component. */
  ghost predicate UnmetReference(components: seq<Component>, e: Evidence) {
    || (exists r <- e.cdxRefs :: forall c <- components :: c.cyclonedxRef != Some(r))
    || (exists r <- e.spdxRefs :: forall c <- components :: c.spdxId != Some(r))
  }

  ghost predicate ComponentsBlamed(components: seq<Component>, e: Evidence, code: Blocked) {
    || SomeComponentFault(components, e, code)
    || (code == SbomReference && UnmetReference(components, e)
        && forall i: nat :: i < |components| ==> ComponentFault(components, i, e) == None)
  }

  ghost predicate FilesBlamed(files: seq<FileItem>, known: set<string>, bundle: set<string>, code: Blocked) {
    || (code == InventoryInvalid && !FilesFit(files, known))
    || (code == InventoryIncomplete && FilesFit(files, known)
        && ((set f <- files :: f.path) != bundle || Used(files) != known))
  }

  /** The cause of each code, in the order in which the causes are looked for. */
  ghost predicate Blamed(inv: Inventory, e: Evidence, code: Blocked) {
    if inv.schemaVersion != LICENSE_SCHEMA then code == InventoryInvalid
    else if inv.components == [] || inv.files == [] then code == InventoryIncomplete
    else if !ComponentsAccepted(inv.components, e) then ComponentsBlamed(inv.components, e, code)
    else if !FilesAccepted(inv.files, Ids(inv.components), e.bundle) then
      FilesBlamed(inv.files, Ids(inv.components), e.bundle, code)
    else code == NacLicenseBinding && forall c <- inv.components :: !BindsNac(c)
  }

  /** An inventory is refused with one code only. */
  lemma {:induction false} OneCode(inv: Inventory, e: Evidence, a: Blocked, b: Blocked)
    requires Blamed(inv, e, a) && Blamed(inv, e, b)
    ensures a == b
  {
    hide ComponentFault, FilesFit, ComponentsAccepted, FilesAccepted, UnmetReference;
    var cs := inv.components;
    if i: nat, j: nat :| FirstComponentFault(cs, e, i, a) && FirstComponentFault(cs, e, j, b) {
      assert i == j;
    }
  }

  /** What was gathered from the elements in front tells whether the next key was seen. */
  lemma {:induction false} SeenExactly<T(!new)>(xs: seq<T>, i: nat, key: T -> Option<string>, seen: set<string>)
    requires i < |xs| && EachOnce(xs[..i], key, seen)
    ensures Seen(xs, i, key) <==> key(xs[i]).Some? && key(xs[i]).value in seen
  {
    if key(xs[i]).Some? {
      CountedKeyExists(xs[..i], key, key(xs[i]).value);
      assert Count(xs[..i], key, key(xs[i]).value) == if key(xs[i]).value in seen then 1 else 0;
    }
  }

  lemma {:induction false} Unmet<T(!new)>(xs: seq<T>, key: T -> Option<string>, seen: set<string>, keys: set<string>)
    requires EachOnce(xs, key, seen) && seen != keys && (forall x <- xs :: key(x).Some? ==> key(x).value in keys)
    ensures exists r <- keys :: forall x <- xs :: key(x) != Some(r)
  {
    forall k | k in seen ensures k in keys {
      CountedKeyExists(xs, key, k);
      assert Count(xs, key, k) == 1;
    }
    var r :| r in keys && r !in seen;
    CountedKeyExists(xs, key, r);
    assert Count(xs, key, r) == 0;
  }

  // ---- The inventory loops ----

  method ValidateLicenseInventory(inv: Inventory, e: Evidence) returns (v: Verdict)
    ensures v.Accepted? <==> InventoryAccepted(inv, e)
    ensures v.Rejected? ==> Blamed(inv, e, v.code)
  {
    if inv.schemaVersion != LICENSE_SCHEMA {
      return Rejected(InventoryInvalid);
    }
    if inv.components == [] || inv.files == [] {
      return Rejected(InventoryIncomplete);
    }
    var known;
    v, known := ValidateComponents(inv.components, e);
    if v.Rejected? {
      return v;
    }
    v := ValidateFiles(inv.files, known, e.bundle);
    if v.Rejected? {
      return v;
    }
    if !(exists c <- inv.components :: BindsNac(c)) {
      return Rejected(NacLicenseBinding);
    }
    return Accepted;
  }

  /** A key that was already seen, or is not wanted at all, can no longer occur exactly as wanted. */
  lemma {:induction false} SpoiledKey<T(
    !new)>(xs: seq<T>, i: nat, key: T -> Option<string>, seen: set<string>, wanted: set<string>)
    requires i < |xs| && EachOnce(xs[..i], key, seen) && key(xs[i]).Some?
    requires key(xs[i]).value in seen || key(xs[i]).value !in wanted
    ensures !EachOnce(xs, key, wanted)
  {
    var k := key(xs[i]).value;
    assert xs[..i + 1] == xs[..i] + [xs[i]];
    CountOfAppend(xs[..i], xs[i], key, k);
    CountOfPrefix(xs, i + 1, key, k);
    assert Count(xs[..i], key, k) == if k in seen then 1 else 0;
    assert Count(xs, key, k) > if k in wanted then 1 else 0;
  }

  lemma {:induction false} NothingOnce<T(!new)>(xs: seq<T>, key: T -> Option<string>)
    requires xs == []
    ensures EachOnce(xs, key, {})
  {
  }

  lemma {:induction false} NextKey<T(!new)>(xs: seq<T>, i: nat, key: T -> Option<string>, seen: set<string>)
    requires i < |xs| && EachOnce(xs[..i], key, seen)
    ensures key(xs[i]).None? ==> EachOnce(xs[..i + 1], key, seen)
    ensures key(xs[i]).Some? && key(xs[i]).value !in seen ==> EachOnce(xs[..i + 1], key, seen + {key(xs[i]).value})
  {
    assert xs[..i + 1] == xs[..i] + [xs[i]];
    forall k ensures Count(xs[..i + 1], key, k) == (if k in seen then 1 else 0) + Has(xs[i], key, k) {
      CountOfAppend(xs[..i], xs[i], key, k);
    }
  }

  lemma {:induction false} FaultBySets(
    components: seq<Component>, i: nat, e: Evidence, known: set<string>, cdxSeen: set<string>, spdxSeen: set<string>)
    requires i < |components| && EachOnce(components[..i], ID, known)
    requires EachOnce(components[..i], CDX, cdxSeen) && EachOnce(components[..i], SPDX, spdxSeen)
    ensures var c := components[i];
      ComponentFault(components, i, e) ==
        if c.base.id in known || !FieldsFit(c.base) then Some(InventoryInvalid)
        else if !TextFits(c, e) then Some(TextMismatch)
        else if || (c.cyclonedxRef.Some? <==> c.spdxId.None?)
                || (c.cyclonedxRef.Some? && (c.cyclonedxRef.value !in e.cdxRefs || c.cyclonedxRef.value in cdxSeen))
                || (c.spdxId.Some? && (c.spdxId.value !in e.spdxRefs || c.spdxId.value in spdxSeen))
          then Some(SbomReference)
        else None
  {
    hide Seen, EachOnce, FieldsFit, TextFits;
    SeenExactly(components, i, ID, known);
    SeenExactly(components, i, CDX, cdxSeen);
    SeenExactly(components, i, SPDX, spdxSeen);
  }

  method ValidateComponents(components: seq<Component>, e: Evidence) returns (v: Verdict, known: set<string>)
    ensures v.Accepted? <==> ComponentsAccepted(components, e)
    ensures v.Rejected? ==> ComponentsBlamed(components, e, v.code)
    ensures v.Accepted? ==> known == Ids(components)
  {
    hide ComponentFault;
    known := {};
    var cdxSeen: set<string>, spdxSeen: set<string> := {}, {};
    for i := 0 to |components|
      invariant known == Ids(components[..i])
      invariant forall c <- components[..i] :: ComponentAccepted(c, e)
      invariant EachOnce(components[..i], ID, known)
      invariant EachOnce(components[..i], CDX, cdxSeen) && EachOnce(components[..i], SPDX, spdxSeen)
      invariant forall j: nat :: j < i ==> ComponentFault(components, j, e) == None
    {
      var c := components[i];
      assert c in components && components[..i + 1] == components[..i] + [c];
      FaultBySets(components, i, e, known, cdxSeen, spdxSeen);
      assert forall code :: ComponentFault(components, i, e) == Some(code) ==> FirstComponentFault(components, e, i, code);
      if c.base.id in known {
        SpoiledKey(components, i, ID, known, Ids(components));
        return Rejected(InventoryInvalid), known;
      }
      NextKey(components, i, ID, known);
      NextKey(components, i, CDX, cdxSeen);
      NextKey(components, i, SPDX, spdxSeen);
      known := known + {c.base.id};
      if !FieldsFit(c.base) {
        return Rejected(InventoryInvalid), known;
      }
      var l := c.base;
      if !Hex(l.textSha256, 64) || l.textPath !in e.textHashes || e.textHashes[l.textPath] != l.textSha256 {
        return Rejected(TextMismatch), known;
      }
      if c.cyclonedxRef.None? != c.spdxId.None? {
        return Rejected(SbomReference), known;
      }
      if c.cyclonedxRef.Some? {
        var cdxRef, spdxId := c.cyclonedxRef.value, c.spdxId.value;
        if cdxRef !in e.cdxRefs || cdxRef in cdxSeen {
          SpoiledKey(components, i, CDX, cdxSeen, e.cdxRefs);
          return Rejected(SbomReference), known;
        }
        if spdxId !in e.spdxRefs || spdxId in spdxSeen {
          SpoiledKey(components, i, SPDX, spdxSeen, e.spdxRefs);
          return Rejected(SbomReference), known;
        }
        cdxSeen, spdxSeen := cdxSeen + {cdxRef}, spdxSeen + {spdxId};
      }
    }
    assert components[..|components|] == components;
    if cdxSeen != e.cdxRefs || spdxSeen != e.spdxRefs {
      OnceDetermines(components, CDX, cdxSeen, e.cdxRefs);
      OnceDetermines(components, SPDX, spdxSeen, e.spdxRefs);
      ReferencesUnmet(components, e, cdxSeen, spdxSeen);
      return Rejected(SbomReference), known;
    }
    return Accepted, known;
  }

  lemma {:induction false} ReferencesUnmet(
    components: seq<Component>, e: Evidence, cdxSeen: set<string>, spdxSeen: set<string>)
    requires EachOnce(components, CDX, cdxSeen) && EachOnce(components, SPDX, spdxSeen)
    requires cdxSeen != e.cdxRefs || spdxSeen != e.spdxRefs
    requires forall i: nat :: i < |components| ==> ComponentFault(components, i, e) == None
    ensures UnmetReference(components, e)
  {
    hide EachOnce;
    forall c <- components
      ensures CDX(c).Some? ==> CDX(c).value in e.cdxRefs
      ensures SPDX(c).Some? ==> SPDX(c).value in e.spdxRefs
    {
      var i :| 0 <= i < |components| && components[i] == c;
      assert ComponentFault(components, i, e) == None;
    }
    if cdxSeen != e.cdxRefs {
      Unmet(components, CDX, cdxSeen, e.cdxRefs);
      var r :| r in e.cdxRefs && forall c <- components :: CDX(c) != Some(r);
      assert forall c <- components :: CDX(c) == c.cyclonedxRef;
    } else {
      Unmet(components, SPDX, spdxSeen, e.spdxRefs);
      var r :| r in e.spdxRefs && forall c <- components :: SPDX(c) != Some(r);
      assert forall c <- components :: SPDX(c) == c.spdxId;
    }
  }

  lemma {:induction false} OnceDetermines<T(!new)>(xs: seq<T>, key: T -> Option<string>, a: set<string>, b: set<string>)
    requires EachOnce(xs, key, a)
    ensures EachOnce(xs, key, b) <==> a == b
  {
    forall k ensures (k in a) == (Count(xs, key, k) == 1) {
    }
  }

  lemma {:induction false} FileFaultBySet(files: seq<FileItem>, i: nat, known: set<string>, observed: set<string>)
    requires i < |files| && EachOnce(files[..i], PATH, observed)
    ensures FileFault(files, i, known) <==> files[i].path in observed || !FileAccepted(files[i], known)
  {
    hide Seen, EachOnce, FileAccepted;
    SeenExactly(files, i, PATH, observed);
  }

  method ValidateFiles(files: seq<FileItem>, known: set<string>, bundle: set<string>) returns (v: Verdict)
    ensures v.Accepted? <==> FilesAccepted(files, known, bundle)
    ensures v.Rejected? ==> FilesBlamed(files, known, bundle, v.code)
  {
    hide FileFault, FileAccepted, EachOnce, SafeRelative;
    var observed: set<string>, used: set<string> := {}, {};
    assert EachOnce(files[..0], PATH, {}) by { NothingOnce(files[..0], PATH); }
    for i := 0 to |files|
      invariant forall f <- files[..i] :: FileAccepted(f, known)
      invariant EachOnce(files[..i], PATH, observed)
      invariant used == Used(files[..i]) && observed == set f <- files[..i] :: f.path
      invariant forall j: nat :: j < i ==> !FileFault(files, j, known)
    {
      var f := files[i];
      assert f in files && files[..i + 1] == files[..i] + [f];
      FileFaultBySet(files, i, known, observed);
      if f.path in observed {
        SpoiledKey(files, i, PATH, observed, bundle);
        return Rejected(InventoryInvalid);
      }
      NextKey(files, i, PATH, observed);
      if !FileAccepted(f, known) {
        return Rejected(InventoryInvalid);
      }
      observed := observed + {f.path};
      used := used + (set id <- f.componentIds);
    }
    assert files[..|files|] == files;
    OnceDetermines(files, PATH, observed, bundle);
    if observed != bundle || used != known {
      return Rejected(InventoryIncomplete);
    }
    return Accepted;
  }

  // ---- The reviewed catalog ----

  const UNKNOWN_LICENSES: set<string> := {"NOASSERTION", "UNKNOWN", "PENDING", "TBD", "NONE", "N/A"}

  /** `uriAllowed` stands for the `urlsplit` test: https, a host, no credentials, query or fragment. */
  predicate CatalogComponentAccepted(c: CatalogComponent, uriAllowed: string -> bool) {
    && WellFormedLicense(c.base)
    && c.base.textSha256 != ZERO_HASH
    && if c.base.id == "nac" then
         && c.sourceUri == "git:HEAD" && c.sourceSha256 == "BOUND_SOURCE_TREE"
         && c.base.license == "AGPL-3.0-or-later" && c.base.textPath == "LICENSE"
       else
         && |c.sourceUri| <= 240 && uriAllowed(c.sourceUri)
         && Hex(c.sourceSha256, 64) && c.sourceSha256 != ZERO_HASH
         && Upper(c.base.license) !in UNKNOWN_LICENSES
  }

  function CatalogIds(components: seq<CatalogComponent>): set<string> {
    set c <- components :: c.base.id
  }

  function Members(f: FileItem): set<string> { set id <- f.componentIds }

  predicate HeadersAccepted(cat: Catalog, inv: Inventory, expectedTree: string, reviewedPreparation: Option<string>) {
    && cat.schemaVersion == LICENSE_CATALOG_SCHEMA && cat.status == "APPROVED"
    && cat.components != [] && cat.files != []
    && inv.schemaVersion == LICENSE_SCHEMA
    && Hex(expectedTree, 40)
    && reviewedPreparation == Some(cat.reviewedPreparation)
  }

  ghost predicate CatalogComponentsAccepted(components: seq<CatalogComponent>, uriAllowed: string -> bool) {
    && (forall c <- components :: CatalogComponentAccepted(c, uriAllowed))
    && EachOnce(components, CATALOG_ID, CatalogIds(components))
  }

  /** Every inventory component is a catalog component with the same license record, and none is missing. */
  ghost predicate ComponentsApproved(catalog: seq<CatalogComponent>, components: seq<Component>) {
    && (forall c <- components :: exists d <- catalog :: d.base == c.base)
    && EachOnce(components, ID, CatalogIds(catalog))
  }

  /** Catalog and inventory attribute the same component set to every bundle file. */
  ghost predicate FilesApproved(catalog: seq<FileItem>, files: seq<FileItem>, known: set<string>, bundle: set<string>) {
    && (forall g <- catalog :: FileAccepted(g, known))
    && EachOnce(catalog, PATH, bundle)
    && (forall f <- files :: NoRepeats(f.componentIds) && exists g <- catalog :: g.path == f.path && Members(g) == Members(f))
    && EachOnce(files, PATH, bundle)
  }

  ghost predicate CatalogApproves(
    cat: Catalog, inv: Inventory, bundle: set<string>, expectedTree: string, reviewedPreparation: Option<string>,
    uriAllowed: string -> bool)
  {
    && HeadersAccepted(cat, inv, expectedTree, reviewedPreparation)
    && CatalogComponentsAccepted(cat.components, uriAllowed)
    && ComponentsApproved(cat.components, inv.components)
    && FilesApproved(cat.files, inv.files, CatalogIds(cat.components), bundle)
  }

  method ValidateReviewedLicenseCatalog(
    cat: Catalog, inv: Inventory, bundle: set<string>, expectedTree: string, reviewedPreparation: Option<string>,
    uriAllowed: string -> bool)
    returns (v: Verdict)
    ensures v == if CatalogApproves(cat, inv, bundle, expectedTree, reviewedPreparation, uriAllowed)
                 then Accepted else Rejected(Provenance)
  {
    if !HeadersAccepted(cat, inv, expectedTree, reviewedPreparation) {
      return Rejected(Provenance);
    }
    var ok, catalogComponents := CollectCatalogComponents(cat.components, uriAllowed);
    if !ok {
      return Rejected(Provenance);
    }
    ok := MatchInventoryComponents(cat.components, catalogComponents, inv.components);
    if !ok {
      return Rejected(Provenance);
    }
    ok := MatchFiles(cat.files, inv.files, catalogComponents.Keys, bundle);
    return if ok then Accepted else Rejected(Provenance);
  }

  ghost predicate IsCatalogMap(components: seq<CatalogComponent>, m: map<string, License>) {
    && m.Keys == CatalogIds(components)
    && (forall c <- components :: c.base.id in m && m[c.base.id] == c.base)
  }

  lemma {:induction false} ExtendCatalogMap(front: seq<CatalogComponent>, c: CatalogComponent, m: map<string, License>)
    requires IsCatalogMap(front, m) && c.base.id !in m
    ensures IsCatalogMap(front + [c], m[c.base.id := c.base])
  {
    assert CatalogIds(front + [c]) == CatalogIds(front) + {c.base.id};
  }

  method CollectCatalogComponents(components: seq<CatalogComponent>, uriAllowed: string -> bool)
    returns (ok: bool, collected: map<string, License>)
    ensures ok <==> CatalogComponentsAccepted(components, uriAllowed)
    ensures ok ==> IsCatalogMap(components, collected)
  {
    collected := map[];
    for i := 0 to |components|
      invariant forall c <- components[..i] :: CatalogComponentAccepted(c, uriAllowed)
      invariant EachOnce(components[..i], CATALOG_ID, collected.Keys)
      invariant IsCatalogMap(components[..i], collected)
    {
      var c := components[i];
      assert c in components && components[..i + 1] == components[..i] + [c];
      if c.base.id in collected {
        SpoiledKey(components, i, CATALOG_ID, collected.Keys, CatalogIds(components));
        return false, collected;
      }
      NextKey(components, i, CATALOG_ID, collected.Keys);
      if !CatalogComponentAccepted(c, uriAllowed) {
        return false, collected;
      }
      ExtendCatalogMap(components[..i], c, collected);
      collected := collected[c.base.id := c.base];
    }
    assert components[..|components|] == components;
    ok := true;
  }

  method MatchInventoryComponents(
    ghost catalog: seq<CatalogComponent>, approved: map<string, License>, components: seq<Component>)
    returns (ok: bool)
    requires IsCatalogMap(catalog, approved)
    ensures ok <==> ComponentsApproved(catalog, components)
  {
    var matched: set<string> := {};
    for i := 0 to |components|
      invariant forall c <- components[..i] :: exists d <- catalog :: d.base == c.base
      invariant EachOnce(components[..i], ID, matched)
    {
      var c := components[i];
      assert c in components && components[..i + 1] == components[..i] + [c];
      if c.base.id in matched || c.base.id !in approved {
        SpoiledKey(components, i, ID, matched, CatalogIds(catalog));
        return false;
      }
      NextKey(components, i, ID, matched);
      if c.base != approved[c.base.id] {
        return false;
      }
      matched := matched + {c.base.id};
    }
    assert components[..|components|] == components;
    OnceDetermines(components, ID, matched, CatalogIds(catalog));
    ok := matched == approved.Keys;
  }

  /** A dict from path to component set built from file items. */
  ghost predicate IsFileMap(files: seq<FileItem>, m: map<string, set<string>>) {
    && EachOnce(files, PATH, m.Keys)
    && (forall f <- files :: f.path in m && m[f.path] == Members(f))
  }

  lemma {:induction false} ExtendFileMap(front: seq<FileItem>, f: FileItem, m: map<string, set<string>>)
    requires IsFileMap(front, m) && f.path !in m
    ensures IsFileMap(front + [f], m[f.path := Members(f)])
  {
    var next := m[f.path := Members(f)];
    assert next.Keys == m.Keys + {f.path};
    forall k ensures Count(front + [f], PATH, k) == if k in next then 1 else 0 {
      CountOfAppend(front, f, PATH, k);
    }
  }

  method CollectFiles(
    files: seq<FileItem>, valid: FileItem -> bool)
    returns (ok: bool, collected: map<string, set<string>>)
    ensures ok ==> (forall f <- files :: valid(f)) && IsFileMap(files, collected)
    ensures !ok ==> (exists f <- files :: !valid(f)) || forall wanted :: !EachOnce(files, PATH, wanted)
  {
    collected := map[];
    for i := 0 to |files|
      invariant (forall f <- files[..i] :: valid(f)) && IsFileMap(files[..i], collected)
    {
      var f := files[i];
      assert f in files && files[..i + 1] == files[..i] + [f];
      if f.path in collected {
        forall wanted ensures !EachOnce(files, PATH, wanted) {
          SpoiledKey(files, i, PATH, collected.Keys, wanted);
        }
        return false, collected;
      }
      NextKey(files, i, PATH, collected.Keys);
      if !valid(f) {
        return false, collected;
      }
      ExtendFileMap(files[..i], f, collected);
      collected := collected[f.path := Members(f)];
    }
    assert files[..|files|] == files;
    ok := true;
  }

  method MatchFiles(
    catalog: seq<FileItem>, files: seq<FileItem>, known: set<string>, bundle: set<string>)
    returns (ok: bool)
    ensures ok <==> FilesApproved(catalog, files, known, bundle)
  {
    var expected, observed;
    ok, expected := CollectFiles(catalog, (g: FileItem) => FileAccepted(g, known));
    if !ok {
      return false;
    }
    OnceDetermines(catalog, PATH, expected.Keys, bundle);
    if expected.Keys != bundle {
      return false;
    }
    ok, observed := CollectFiles(files, (f: FileItem) => NoRepeats(f.componentIds));
    if !ok {
      return false;
    }
    OnceDetermines(files, PATH, observed.Keys, bundle);
    SameFileMaps(catalog, files, expected, observed);
    ok := observed == expected;
  }

  lemma {:induction false} SameFileMaps(
    catalog: seq<FileItem>, files: seq<FileItem>, expected: map<string, set<string>>, observed: map<string, set<string>>)
    requires IsFileMap(catalog, expected) && IsFileMap(files, observed)
    ensures observed == expected
       <==> && observed.Keys == expected.Keys
            && forall f <- files :: exists g <- catalog :: g.path == f.path && Members(g) == Members(f)
  {
    if observed == expected {
      forall f <- files ensures exists g <- catalog :: g.path == f.path && Members(g) == Members(f) {
        assert f.path in expected;
        var i := OneElementPerKey(catalog, PATH, expected.Keys, f.path);
        assert catalog[i] in catalog;
      }
    } else if observed.Keys == expected.Keys {
      var p :| p in observed && observed[p] != expected[p];
      var i := OneElementPerKey(files, PATH, observed.Keys, p);
      var f := files[i];
      assert f in files;
      assert forall g <- catalog :: g.path == p ==> Members(g) != Members(f);
    }
  }

  // ---- Both gates together ----

  /** What "each once" gives: one element per wanted key, and no element with another key. */
  lemma {:induction false} OneElementPerKey<T(
    !new)>(xs: seq<T>, key: T -> Option<string>, keys: set<string>, k: string)
    returns (i: nat)
    requires EachOnce(xs, key, keys) && k in keys
    ensures i < |xs| && key(xs[i]) == Some(k)
    ensures forall j :: 0 <= j < |xs| && key(xs[j]) == Some(k) ==> j == i
  {
    assert Count(xs, key, k) == 1;
    CountedKeyExists(xs, key, k);
    i :| 0 <= i < |xs| && key(xs[i]) == Some(k);
    forall j | 0 <= j < |xs| && key(xs[j]) == Some(k) ensures j == i {
      if j < i { TwiceCounts(xs, key, k, j, i); }
      if i < j { TwiceCounts(xs, key, k, i, j); }
    }
  }

  lemma {:induction false} EntryOfPath(files: seq<FileItem>, bundle: set<string>, path: string) returns (i: nat)
    requires EachOnce(files, PATH, bundle) && path in bundle
    ensures i < |files| && files[i].path == path
    ensures forall n :: 0 <= n < |files| && files[n].path == path ==> n == i
  {
    hide EachOnce;
    i := OneElementPerKey(files, PATH, bundle, path);
    assert forall n :: 0 <= n < |files| ==> PATH(files[n]) == Some(files[n].path);
  }

  /** After both gates a bundle file has one inventory entry and carries exactly the components the catalog approved. */
  lemma {:induction false} BundleFilesCarryApprovedComponents(
    cat: Catalog, inv: Inventory, e: Evidence, expectedTree: string, reviewedPreparation: Option<string>,
    uriAllowed: string -> bool, path: string)
    returns (i: nat, j: nat)
    requires InventoryAccepted(inv, e)
    requires CatalogApproves(cat, inv, e.bundle, expectedTree, reviewedPreparation, uriAllowed)
    requires path in e.bundle
    ensures i < |inv.files| && j < |cat.files| && inv.files[i].path == path == cat.files[j].path
    ensures forall n :: 0 <= n < |inv.files| && inv.files[n].path == path ==> n == i
    ensures forall n :: 0 <= n < |cat.files| && cat.files[n].path == path ==> n == j
    ensures Members(inv.files[i]) == Members(cat.files[j]) != {}
    ensures forall id <- inv.files[i].componentIds :: IsApproved(cat, inv, id)
  {
    hide SafeRelative, HeadersAccepted, CatalogComponentAccepted, ComponentAccepted, NoRepeats, EachOnce, WellFormedLicense;
    i := EntryOfPath(inv.files, e.bundle, path);
    j := EntryOfPath(cat.files, e.bundle, path);
    var f := inv.files[i];
    assert f in inv.files && FileAccepted(f, Ids(inv.components));
    assert f.componentIds[0] in Members(f);
    var g :| g in cat.files && g.path == f.path && Members(g) == Members(f);
    var n :| 0 <= n < |cat.files| && cat.files[n] == g;
    forall id <- f.componentIds ensures IsApproved(cat, inv, id) {
      assert id in Ids(inv.components);
    }
  }

  /** The id names an inventory component whose whole license record the catalog repeats. */
  ghost predicate IsApproved(cat: Catalog, inv: Inventory, id: string) {
    exists c <- inv.components, d <- cat.components :: c.base.id == id && d.base == c.base
  }
}
