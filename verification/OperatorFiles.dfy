/** scripts/nac_hw_bridge.py: the files of a request, staged for a proposal or attached to a document. */
module OperatorFiles {
  import opened Options
  import opened Text
  import opened Identifiers
  import opened OperatorRequests

  /** An entry of `document_files`. */
  datatype FileRef = FileRef(source: string, filename: string, caption: string, mediaType: string)
  datatype Original = Original(caption: string, path: string, mediaType: string)

  /** What an upload carries: nothing, something that cannot be decoded, or bytes. */
  datatype Content = NoContent | Unreadable | Readable
  datatype Upload = Upload(caption: string, filename: string, mediaType: string, content: Content)

  /** A file of a proposal; its path is empty when the upload had no content. */
  datatype StagedFile = StagedFile(caption: string, filename: string, mediaType: string, path: string)

  /** The files staged before the first failure, if there is one. */
  datatype Staging = Staging(files: seq<StagedFile>, failure: Option<Error>)

  const DEFAULT_MEDIA_TYPE := "application/octet-stream"

  // ---- File names ----

  /** `Path(path).name`. */
  function FileName(path: string): string { LastName(SplitOn(path, '/')) }

  function LastName(parts: seq<string>): string {
    if parts == [] then ""
    else
      var last := parts[|parts| - 1];
      if last == "" || last == "." then LastName(parts[..|parts| - 1]) else last
  }

  predicate IsNameChar(c: char) { IsAlphanumeric(c) || c == '.' || c == '_' || c == '-' }

  /** `re.sub(r"[^A-Za-z0-9._-]+", "-", s)`. */
  function Dashed(s: string): string {
    if s == "" then ""
    else
      var n := |s| - 1;
      if IsNameChar(s[n]) then Dashed(s[..n]) + [s[n]]
      else if n > 0 && !IsNameChar(s[n - 1]) then Dashed(s[..n])
      else Dashed(s[..n]) + "-"
  }

  function TrimStart(s: string): string {
    if s != "" && (s[0] == '.' || s[0] == '-') then TrimStart(s[1..]) else s
  }

  function TrimEnd(s: string): string {
    if s != "" && (s[|s| - 1] == '.' || s[|s| - 1] == '-') then TrimEnd(s[..|s| - 1]) else s
  }

  function SafeFilename(value: string): string { Or(TrimEnd(TrimStart(Dashed(FileName(value)))), "datei.bin") }

  predicate NameChars(s: string) { forall k :: 0 <= k < |s| ==> IsNameChar(s[k]) }

  lemma {:induction false} PartsAreShort(s: string, c: char)
    ensures forall part <- SplitOn(s, c) :: |part| <= |s|
    decreases |s|
  {
    if s != "" {
      PartsAreShort(s[1..], c);
      var rest := SplitOn(s[1..], c);
      assert rest[0] in rest;
    }
  }

  lemma {:induction false} LastNameIsPart(parts: seq<string>)
    ensures LastName(parts) == "" || LastName(parts) in parts
    decreases |parts|
  {
    if parts != [] { LastNameIsPart(parts[..|parts| - 1]); }
  }

  lemma {:induction false} DashedShape(s: string)
    ensures NameChars(Dashed(s)) && |Dashed(s)| <= |s|
    decreases |s|
  {
    if s != "" { DashedShape(s[..|s| - 1]); }
  }

  lemma {:induction false} TrimStartShape(s: string)
    ensures NameChars(s) ==> NameChars(TrimStart(s))
    ensures |TrimStart(s)| <= |s|
    decreases |s|
  {
    if s != "" { TrimStartShape(s[1..]); }
  }

  lemma {:induction false} TrimEndShape(s: string)
    ensures NameChars(s) ==> NameChars(TrimEnd(s))
    ensures |TrimEnd(s)| <= |s|
    decreases |s|
  {
    if s != "" { TrimEndShape(s[..|s| - 1]); }
  }

  /** A safe file name is not empty, of harmless characters, and no longer than what it was made from, or a default. */
  lemma {:induction false} SafeFilenameShape(value: string)
    ensures SafeFilename(value) != "" && NameChars(SafeFilename(value))
    ensures |SafeFilename(value)| <= |value| || SafeFilename(value) == "datei.bin"
  {
    hide SplitOn, LastName, Dashed, TrimStart, TrimEnd;
    PartsAreShort(value, '/');
    LastNameIsPart(SplitOn(value, '/'));
    DashedShape(FileName(value));
    TrimStartShape(Dashed(FileName(value)));
    TrimEndShape(TrimStart(Dashed(FileName(value))));
    assert NameChars("datei.bin");
  }

  // A path's last name, and names that stay as they are.

  lemma {:induction false} SplitOfPath(front: string, name: string)
    requires '/' !in name
    ensures SplitOn(name, '/') == [name]
    ensures SplitOn(front + "/" + name, '/') == SplitOn(front, '/') + [name]
    decreases |front| + |name|
  {
    SplitWithout(name);
    if front == "" {
      assert front + "/" + name == "/" + name;
      assert ("/" + name)[1..] == name;
    } else {
      SplitOfPath(front[1..], name);
      assert (front + "/" + name)[1..] == front[1..] + "/" + name;
    }
  }

  lemma {:induction false} SplitWithout(name: string)
    requires '/' !in name
    ensures SplitOn(name, '/') == [name]
    decreases |name|
  {
    if name != "" {
      assert name[0] in name && '/' !in name[1..];
      SplitWithout(name[1..]);
      assert name == [name[0]] + name[1..];
    }
  }

  /** The name of a path is what follows its last slash; an end that is empty or a dot does not count. */
  lemma {:induction false} FileNameOfPath(front: string, name: string)
    requires '/' !in name
    ensures FileName(name) == if name == "" || name == "." then "" else name
    ensures FileName(front + "/" + name) == if name == "" || name == "." then FileName(front) else name
  {
    SplitOfPath(front, name);
    var parts := SplitOn(front, '/') + [name];
    assert parts[|parts| - 1] == name && parts[..|parts| - 1] == SplitOn(front, '/');
    assert [name][..0] == [] && FileName(name) == LastName([name]);
    assert FileName(front + "/" + name) == LastName(parts);
    assert name == "" || name == "." ==> LastName(parts) == LastName(SplitOn(front, '/'));
  }

  // ---- Safe file names in elementary terms ----

  /** Texts are dashed one by one, unless a run of other characters goes on from one to the next. */
  lemma {:induction false} DashedJoins(a: string, b: string)
    requires a == "" || b == "" || IsNameChar(a[|a| - 1]) || IsNameChar(b[0])
    ensures Dashed(a + b) == Dashed(a) + Dashed(b)
    decreases |b|
  {
    assert Dashed("") == "";
    hide Dashed, IsNameChar;
    if b == "" {
      assert a + b == a;
    } else {
      var n := |b| - 1;
      DashedJoins(a, b[..n]);
      DashedOneMore(a, b[..n], b[n]);
      assert b == b[..n] + [b[n]] && a + b == a + b[..n] + [b[n]];
    }
  }

  lemma {:induction false} DashedOneMore(a: string, b: string, c: char)
    requires Dashed(a + b) == Dashed(a) + Dashed(b)
    requires a == "" || b != "" || IsNameChar(a[|a| - 1]) || IsNameChar(c)
    ensures Dashed(a + b + [c]) == Dashed(a) + Dashed(b + [c])
  {
    DashedNext(a + b, c);
    DashedNext(b, c);
    assert Dashed("") == "";
    hide Dashed, IsNameChar;
    if b == "" {
      assert a + b == a && Dashed(a) + Dashed(b) == Dashed(a);
    } else {
      assert (a + b)[|a + b| - 1] == b[|b| - 1];
    }
  }

  lemma {:induction false} DashedNext(s: string, c: char)
    ensures Dashed(s + [c]) ==
      if IsNameChar(c) then Dashed(s) + [c]
      else if s != "" && !IsNameChar(s[|s| - 1]) then Dashed(s)
      else Dashed(s) + "-"
  {
    assert (s + [c])[..|s|] == s;
  }

  /** A run of other characters becomes one dash, and all the rest stays. */
  lemma {:induction false} DashedRun(gap: string)
    requires gap != "" && forall k :: 0 <= k < |gap| ==> !IsNameChar(gap[k])
    ensures Dashed(gap) == "-"
    decreases |gap|
  {
    if |gap| > 1 { DashedRun(gap[..|gap| - 1]); }
  }

  /** A letter, digit, dot, underscore or dash alone stays; any other character becomes a dash. */
  lemma {:induction false} DashedChar(c: char)
    ensures Dashed([c]) ==
      if '0' <= c <= '9' || 'A' <= c <= 'Z' || 'a' <= c <= 'z' || c in {'.', '_', '-'} then [c] else "-"
  {
    assert [c][..0] == "";
  }

  ghost predicate AllEdge(s: string) { forall k :: 0 <= k < |s| ==> Edge(s[k]) }

  /** Dots and dashes at both ends are dropped; where nothing is left, the name is `datei.bin`. */
  lemma {:induction false} SafeFilenameTrims(value: string, lead: string, core: string, trail: string)
    requires Dashed(FileName(value)) == lead + core + trail && AllEdge(lead) && AllEdge(trail)
    requires core != "" ==> !Edge(core[0]) && !Edge(core[|core| - 1])
    requires core == "" ==> trail == ""
    ensures SafeFilename(value) == if core == "" then "datei.bin" else core
  {
    assert lead + core + trail == lead + (core + trail);
    TrimsLead(lead, core + trail);
    TrimsTrail(core, trail);
  }

  lemma {:induction false} TrimsLead(lead: string, rest: string)
    requires AllEdge(lead) && (rest != "" ==> !Edge(rest[0]))
    ensures TrimStart(lead + rest) == rest
    decreases |lead|
  {
    if lead == "" {
      assert lead + rest == rest;
    } else {
      assert Edge(lead[0]) && (lead + rest)[1..] == lead[1..] + rest;
      TrimsLead(lead[1..], rest);
    }
  }

  lemma {:induction false} TrimsTrail(core: string, trail: string)
    requires AllEdge(trail) && (core != "" ==> !Edge(core[|core| - 1]))
    ensures TrimEnd(core + trail) == core
    decreases |trail|
  {
    if trail == "" {
      assert core + trail == core;
    } else {
      var n := |trail| - 1;
      assert Edge(trail[n]) && (core + trail)[..|core| + n] == core + trail[..n];
      TrimsTrail(core, trail[..n]);
    }
  }

  predicate Edge(c: char) { c == '.' || c == '-' }

  /** What a safe file name looks like. */
  predicate IsSafeName(s: string) { s != "" && NameChars(s) && !Edge(s[0]) && !Edge(s[|s| - 1]) }

  lemma {:induction false} DashedOfPlain(s: string)
    requires NameChars(s)
    ensures Dashed(s) == s
    decreases |s|
  {
    if s != "" {
      DashedOfPlain(s[..|s| - 1]);
      assert s == s[..|s| - 1] + [s[|s| - 1]];
    }
  }

  /** A safe name is kept, alone or at the end of a path. */
  lemma {:induction false} SafeNameStays(name: string, front: string)
    requires IsSafeName(name)
    ensures SafeFilename(name) == name && SafeFilename(front + "/" + name) == name
  {
    assert '/' !in name && name != "." by { assert forall k :: 0 <= k < |name| ==> IsNameChar(name[k]); }
    FileNameOfPath(front, name);
    DashedOfPlain(name);
    assert TrimStart(name) == name && TrimEnd(name) == name;
  }

  lemma {:induction false} TrimStartEdge(s: string)
    ensures TrimStart(s) != "" ==> !Edge(TrimStart(s)[0])
    decreases |s|
  {
    if s != "" { TrimStartEdge(s[1..]); }
  }

  lemma {:induction false} TrimEndEdge(s: string)
    ensures TrimEnd(s) <= s && (TrimEnd(s) != "" ==> !Edge(TrimEnd(s)[|TrimEnd(s)| - 1]))
    decreases |s|
  {
    if s != "" { TrimEndEdge(s[..|s| - 1]); }
  }

  /** Every safe file name is safe, so making it safe again changes nothing. */
  lemma {:induction false} SafeFilenameIsSafe(value: string)
    ensures IsSafeName(SafeFilename(value)) && SafeFilename(SafeFilename(value)) == SafeFilename(value)
  {
    hide TrimStart, TrimEnd, Dashed, FileName, NameChars;
    SafeFilenameShape(value);
    var t := TrimStart(Dashed(FileName(value)));
    TrimStartEdge(Dashed(FileName(value)));
    TrimEndEdge(t);
    SafeNameStays(SafeFilename(value), "");
  }

  lemma {:induction false} NameCharsAreTight(s: string)
    requires NameChars(s)
    ensures Tight(s)
  {
    assert forall k :: 0 <= k < |s| ==> IsNameChar(s[k]);
  }

  // ---- Attaching files to a document ----

  /** The name of the file a source leads to: a staged upload, or another file of the repository. */
  function NameAt(staged: set<string>, others: map<string, string>, source: string): Option<string> {
    if source in staged then Some(FileName(source)) else if source in others then Some(others[source]) else None
  }

  function OriginalLabel(index: nat): string { "Original " + Decimal(index) }

  /** One round of `attach_document_files`; an entry without a source is skipped. */
  function AttachOne(staged: set<string>, others: map<string, string>, documentId: string, r: FileRef, index: nat)
    : Result<seq<Original>>
  {
    var source :- CleanText(r.source);
    if source == "" then Ok([])
    else
      match NameAt(staged, others, source)
      case None => Err(ImportFileMissing)
      case Some(name) =>
        var filename :- CleanText(Or(r.filename, name));
        var caption :- CleanText(Or(r.caption, OriginalLabel(index)));
        var mediaType :- CleanText(Or(r.mediaType, DEFAULT_MEDIA_TYPE));
        Ok([Original(caption, "dokumente/" + documentId + "/original/" + SafeFilename(filename), mediaType)])
  }

  /** `attach_document_files` for the first `n` entries. */
  function Attach(staged: set<string>, others: map<string, string>, documentId: string, refs: seq<FileRef>, n: nat)
    : Result<seq<Original>>
    requires n <= |refs|
  {
    if n == 0 then Ok([])
    else
      var before :- Attach(staged, others, documentId, refs, n - 1);
      var more :- AttachOne(staged, others, documentId, refs[n - 1], n);
      Ok(before + more)
  }

  lemma {:induction false} AttachStops(
    staged: set<string>, others: map<string, string>, documentId: string, refs: seq<FileRef>, n: nat)
    requires n <= |refs| && Attach(staged, others, documentId, refs, n).Err?
    ensures Attach(staged, others, documentId, refs, |refs|) == Attach(staged, others, documentId, refs, n)
    decreases |refs| - n
  {
    hide AttachOne;
    if n < |refs| { AttachStops(staged, others, documentId, refs, n + 1); }
  }

  method AttachDocumentFiles(staged: set<string>, others: map<string, string>, documentId: string, files: seq<FileRef>)
    returns (r: Result<seq<Original>>)
    ensures r == Attach(staged, others, documentId, files, |files|)
  {
    hide CleanText, SafeFilename;
    var originals: seq<Original> := [];
    for i := 0 to |files|
      invariant Attach(staged, others, documentId, files, i) == Ok(originals)
    {
      var file := files[i];
      var source := CleanText(file.source);
      if source.Err? {
        AttachStops(staged, others, documentId, files, i + 1);
        return Err(source.error);
      }
      if source.value == "" {
        assert originals + [] == originals;
        continue;
      }
      var name := NameAt(staged, others, source.value);
      if name.None? {
        AttachStops(staged, others, documentId, files, i + 1);
        return Err(ImportFileMissing);
      }
      var filename := CleanText(Or(file.filename, name.value));
      if filename.Err? {
        AttachStops(staged, others, documentId, files, i + 1);
        return Err(filename.error);
      }
      var caption := CleanText(Or(file.caption, OriginalLabel(i + 1)));
      if caption.Err? {
        AttachStops(staged, others, documentId, files, i + 1);
        return Err(caption.error);
      }
      var mediaType := CleanText(Or(file.mediaType, DEFAULT_MEDIA_TYPE));
      if mediaType.Err? {
        AttachStops(staged, others, documentId, files, i + 1);
        return Err(mediaType.error);
      }
      var path := "dokumente/" + documentId + "/original/" + SafeFilename(filename.value);
      originals := originals + [Original(caption.value, path, mediaType.value)];
    }
    r := Ok(originals);
  }

  /** The source can be read, and is blank or leads to a file whose name, label and media type can be read. */
  ghost predicate Attachable(staged: set<string>, others: map<string, string>, r: FileRef, index: nat) {
    && Usable(r.source, "", 512)
    && (Strip(r.source) != "" ==> exists name ::
          && IsNameOf(staged, others, Strip(r.source), name) && Usable(r.filename, name, 512)
          && Usable(r.caption, "Original " + Decimal(index), 512) && Usable(r.mediaType, "application/octet-stream", 512))
  }

  /** The file a source leads to has that name: of a staged file what ends its path, of another what the repository says. */
  predicate IsNameOf(staged: set<string>, others: map<string, string>, source: string, name: string) {
    if source in staged then name == FileName(source) else source in others && name == others[source]
  }

  /** A source has one name, and that is where it leads. */
  lemma {:induction false} NamesFile(staged: set<string>, others: map<string, string>, source: string)
    ensures var found := NameAt(staged, others, source);
      forall name :: IsNameOf(staged, others, source, name) <==> found == Some(name)
  {
    hide FileName;
  }

  lemma {:induction false} OneAttachedExactly(
    staged: set<string>, others: map<string, string>, documentId: string, r: FileRef, index: nat)
    ensures var a := AttachOne(staged, others, documentId, r, index);
      && (a.Ok? <==> Attachable(staged, others, r, index))
      && (a.Ok? ==> |a.value| == if Strip(r.source) == "" then 0 else 1)
  {
    hide Strip, SafeFilename, Clean, Usable, Decimal, NameAt, IsNameOf;
    CleanTakes(r.source, "", 512);
    assert Or(r.source, "") == r.source;
    CleanTakes(r.caption, OriginalLabel(index), 512);
    CleanTakes(r.mediaType, DEFAULT_MEDIA_TYPE, 512);
    NamesFile(staged, others, Strip(r.source));
    var found := NameAt(staged, others, Strip(r.source));
    if found.Some? { CleanTakes(r.filename, found.value, 512); }
  }

  /** How many entries name a source. */
  function SourceCount(refs: seq<FileRef>, n: nat): nat
    requires n <= |refs|
  {
    if n == 0 then 0 else SourceCount(refs, n - 1) + if Strip(refs[n - 1].source) == "" then 0 else 1
  }

  /** Attaching succeeds exactly when every entry is attachable, with one original for each entry that names a source. */
  lemma {:induction false} AttachedExactly(
    staged: set<string>, others: map<string, string>, documentId: string, refs: seq<FileRef>, n: nat)
    requires n <= |refs|
    ensures var a := Attach(staged, others, documentId, refs, n);
      && (a.Ok? <==> forall i :: 0 <= i < n ==> Attachable(staged, others, refs[i], i + 1))
      && (a.Ok? ==> |a.value| == SourceCount(refs, n))
  {
    hide AttachOne, Attachable, Strip;
    if n > 0 {
      AttachedExactly(staged, others, documentId, refs, n - 1);
      OneAttachedExactly(staged, others, documentId, refs[n - 1], n);
    }
  }

  /** The positions among the first `n` entries that name a source, in order. */
  ghost predicate NameSources(at: seq<nat>, refs: seq<FileRef>, n: nat)
    requires n <= |refs|
  {
    && (forall k :: 0 <= k < |at| ==> at[k] < n && Strip(refs[at[k]].source) != "")
    && (forall j, k :: 0 <= j < k < |at| ==> at[j] < at[k])
    && (forall i :: 0 <= i < n && Strip(refs[i].source) != "" ==> i in at)
  }

  /** The original an entry becomes: its own label, media type and name, or the defaults. */
  ghost predicate IsAttached(
    o: Original, r: FileRef, index: nat, staged: set<string>, others: map<string, string>, documentId: string)
  {
    exists name :: IsNameOf(staged, others, Strip(r.source), name) && IsOriginalOf(o, r, index, name, documentId)
  }

  predicate IsOriginalOf(o: Original, r: FileRef, index: nat, name: string, documentId: string) {
    && o.caption == Taken(r.caption, "Original " + Decimal(index))
    && o.mediaType == Taken(r.mediaType, "application/octet-stream")
    && o.path == "dokumente/" + documentId + "/original/" + SafeFilename(Taken(r.filename, name))
  }

  lemma {:induction false} OneOriginal(
    staged: set<string>, others: map<string, string>, documentId: string, r: FileRef, index: nat)
    requires AttachOne(staged, others, documentId, r, index).Ok?
    ensures var a := AttachOne(staged, others, documentId, r, index).value;
      if Strip(r.source) == "" then a == []
      else |a| == 1 && IsAttached(a[0], r, index, staged, others, documentId)
  {
    hide Clean, SafeFilename, Strip, Decimal, NameAt;
    CleanTakes(r.source, "", 512);
    assert Or(r.source, "") == r.source;
    var found := NameAt(staged, others, Strip(r.source));
    CleanTakes(r.caption, OriginalLabel(index), 512);
    CleanTakes(r.mediaType, DEFAULT_MEDIA_TYPE, 512);
    if found.Some? {
      CleanTakes(r.filename, found.value, 512);
      NamesFile(staged, others, Strip(r.source));
    }
  }

  /** The originals are those of the entries that name a source, one for each, in order. */
  lemma {:induction false} AttachRecords(
    staged: set<string>, others: map<string, string>, documentId: string, refs: seq<FileRef>, n: nat)
    returns (at: seq<nat>)
    requires n <= |refs| && Attach(staged, others, documentId, refs, n).Ok?
    ensures var originals := Attach(staged, others, documentId, refs, n).value;
      && NameSources(at, refs, n) && |originals| == |at|
      && forall k :: 0 <= k < |at| ==>
           IsAttached(originals[k], refs[at[k]], at[k] + 1, staged, others, documentId)
  {
    hide AttachOne, IsAttached, Strip;
    if n == 0 {
      at := [];
    } else {
      at := AttachRecords(staged, others, documentId, refs, n - 1);
      OneOriginal(staged, others, documentId, refs[n - 1], n);
      if Strip(refs[n - 1].source) != "" {
        var before := at;
        at := at + [n - 1];
        forall i | 0 <= i < n && Strip(refs[i].source) != "" ensures i in at {
          if i < n - 1 { assert i in before; }
        }
      }
    }
  }

  // ---- Staging the uploads of a proposal ----

  function StagedPath(proposalId: string, filename: string): string { "eingang/dateien/" + proposalId + "/" + filename }

  /** One round of `stage_import_source_files`. */
  function StageOne(proposalId: string, u: Upload, synthetic: bool, index: nat): Result<StagedFile> {
    var caption :- CleanText(Or(u.caption, "Datei " + Decimal(index)));
    var name :- CleanText(Or(u.filename, "datei-" + Decimal(index)));
    var mediaType :- CleanText(Or(u.mediaType, DEFAULT_MEDIA_TYPE));
    var filename := SafeFilename(name);
    match u.content
    case NoContent => Ok(StagedFile(caption, filename, mediaType, ""))
    case Unreadable => Err(UploadUnreadable)
    case Readable =>
      if synthetic then Ok(StagedFile(caption, filename, mediaType, StagedPath(proposalId, filename)))
      else Err(UploadNotSynthetic)
  }

  /** `stage_import_source_files` for the first `n` uploads; what was staged before a failure stays. */
  function Stage(proposalId: string, uploads: seq<Upload>, synthetic: bool, n: nat): Staging
    requires n <= |uploads|
  {
    if n == 0 then Staging([], None)
    else
      var before := Stage(proposalId, uploads, synthetic, n - 1);
      if before.failure.Some? then before
      else
        match StageOne(proposalId, uploads[n - 1], synthetic, n)
        case Err(error) => before.(failure := Some(error))
        case Ok(file) => Staging(before.files + [file], None)
  }

  function PathsOf(files: seq<StagedFile>): set<string> { set f <- files | f.path != "" :: f.path }

  lemma {:induction false} StageStops(proposalId: string, uploads: seq<Upload>, synthetic: bool, n: nat)
    requires n <= |uploads| && Stage(proposalId, uploads, synthetic, n).failure.Some?
    ensures Stage(proposalId, uploads, synthetic, |uploads|) == Stage(proposalId, uploads, synthetic, n)
    decreases |uploads| - n
  {
    hide StageOne;
    if n < |uploads| { StageStops(proposalId, uploads, synthetic, n + 1); }
  }

  lemma {:induction false} PathsOfAppend(files: seq<StagedFile>, f: StagedFile)
    ensures PathsOf(files + [f]) == PathsOf(files) + if f.path == "" then {} else {f.path}
  {
  }

  /** The staged files of a proposal as the files of its matter; files without content are left behind. */
  function Attachments(files: seq<StagedFile>): seq<FileRef> { FirstAttachments(files, |files|) }

  function FirstAttachments(files: seq<StagedFile>, n: nat): seq<FileRef>
    requires n <= |files|
  {
    if n == 0 then [] else FirstAttachments(files, n - 1) + if files[n - 1].path == "" then [] else [RefOf(files[n - 1])]
  }

  function RefOf(f: StagedFile): FileRef { FileRef(f.path, f.filename, f.caption, f.mediaType) }

  /** How many of the first `n` files have content. */
  function FilledCount(files: seq<StagedFile>, n: nat): nat
    requires n <= |files|
  {
    if n == 0 then 0 else FilledCount(files, n - 1) + if files[n - 1].path == "" then 0 else 1
  }

  /** The positions of the files with content among the first `n`, in order. */
  ghost predicate ListsFilled(at: seq<nat>, files: seq<StagedFile>, n: nat)
    requires n <= |files|
  {
    && (forall k :: 0 <= k < |at| ==> at[k] < n && files[at[k]].path != "")
    && (forall j, k :: 0 <= j < k < |at| ==> at[j] < at[k])
    && (forall i :: 0 <= i < n && files[i].path != "" ==> i in at)
  }

  /** The entries are those of the listed files, each being the next one with content. */
  ghost predicate AreOf(refs: seq<FileRef>, at: seq<nat>, files: seq<StagedFile>) {
    && |refs| == |at|
    && forall k :: 0 <= k < |at| ==> at[k] < |files| && refs[k] == RefOf(files[at[k]]) && FilledCount(files, at[k]) == k
  }

  lemma {:induction false} OneMoreFilled(at: seq<nat>, files: seq<StagedFile>, n: nat)
    requires 0 < n <= |files| && ListsFilled(at, files, n - 1)
    ensures files[n - 1].path != "" ==> ListsFilled(at + [n - 1], files, n)
    ensures files[n - 1].path == "" ==> ListsFilled(at, files, n)
  {
    if files[n - 1].path != "" {
      var more := at + [n - 1];
      forall i | 0 <= i < n && files[i].path != "" ensures i in more {
        if i < n - 1 { assert i in at; }
      }
    }
  }

  lemma {:induction false} OneMoreOf(refs: seq<FileRef>, at: seq<nat>, files: seq<StagedFile>, i: nat)
    requires AreOf(refs, at, files) && i < |files| && FilledCount(files, i) == |at|
    ensures AreOf(refs + [RefOf(files[i])], at + [i], files)
  {
    hide RefOf, FilledCount;
  }

  /** Exactly the files with content are handed on, in order, with path, name, label and media type. */
  lemma {:induction false} AttachmentsAre(files: seq<StagedFile>, n: nat) returns (at: seq<nat>)
    requires n <= |files|
    ensures ListsFilled(at, files, n) && AreOf(FirstAttachments(files, n), at, files) && |at| == FilledCount(files, n)
  {
    hide RefOf, ListsFilled, AreOf;
    if n == 0 {
      at := [];
      NoneFilled(files);
    } else {
      at := AttachmentsAre(files, n - 1);
      OneMoreFilled(at, files, n);
      if files[n - 1].path != "" {
        OneMoreOf(FirstAttachments(files, n - 1), at, files, n - 1);
        at := at + [n - 1];
      } else {
        assert FirstAttachments(files, n) == FirstAttachments(files, n - 1);
      }
    }
  }

  lemma {:induction false} NoneFilled(files: seq<StagedFile>)
    ensures ListsFilled([], files, 0) && AreOf([], [], files)
  {
  }

  // ---- Staged files can be attached again ----

  /** Every text of a staged file is clean; only its path may be too long for a value. */
  predicate CleanFile(f: StagedFile) {
    Short(f.caption) && Short(f.filename) && IsSafeName(f.filename) && Short(f.mediaType) && Tight(f.path)
  }

  lemma {:induction false} StagedPathIsTight(proposalId: string, filename: string)
    requires NameChars(proposalId) && NameChars(filename) && filename != ""
    ensures Tight(StagedPath(proposalId, filename))
  {
    var path := StagedPath(proposalId, filename);
    assert path[0] == 'e' && path[|path| - 1] == filename[|filename| - 1];
    assert Printable("eingang/dateien/") && Printable("/");
    PrintableJoins("eingang/dateien/", proposalId);
    PrintableJoins("eingang/dateien/" + proposalId, "/");
    PrintableJoins("eingang/dateien/" + proposalId + "/", filename);
  }

  lemma {:induction false} PrintableJoins(a: string, b: string)
    requires Printable(a) && (Printable(b) || NameChars(b))
    ensures Printable(a + b)
  {
    forall k | 0 <= k < |a + b| ensures (a + b)[k] as int >= 32 || (a + b)[k] == '\t' {
      if k >= |a| { assert (a + b)[k] == b[k - |a|]; }
    }
  }

  lemma {:induction false} StagedOneIsClean(proposalId: string, u: Upload, synthetic: bool, index: nat)
    requires NameChars(proposalId) && StageOne(proposalId, u, synthetic, index).Ok?
    ensures CleanFile(StageOne(proposalId, u, synthetic, index).value)
  {
    hide Clean, SafeFilename, StagedPath, NameChars, Decimal, Tight, IsSafeName;
    CleanIsTight(Or(u.caption, "Datei " + Decimal(index)), 512);
    CleanIsTight(Or(u.filename, "datei-" + Decimal(index)), 512);
    CleanIsTight(Or(u.mediaType, DEFAULT_MEDIA_TYPE), 512);
    var filename := SafeFilename(CleanText(Or(u.filename, "datei-" + Decimal(index))).value);
    SafeFilenameShape(CleanText(Or(u.filename, "datei-" + Decimal(index))).value);
    SafeFilenameIsSafe(CleanText(Or(u.filename, "datei-" + Decimal(index))).value);
    NameCharsAreTight(filename);
    StagedPathIsTight(proposalId, filename);
    assert Tight("") by { EmptyIsTight(); }
  }

  lemma {:induction false} EmptyIsTight()
    ensures Tight("")
  {
  }

  lemma {:induction false} DefaultMediaTypeIsShort()
    ensures Short(DEFAULT_MEDIA_TYPE)
  {
  }

  lemma {:induction false} StagedAreClean(proposalId: string, uploads: seq<Upload>, synthetic: bool, n: nat)
    requires n <= |uploads| && NameChars(proposalId)
    ensures forall f <- Stage(proposalId, uploads, synthetic, n).files :: CleanFile(f)
  {
    hide StageOne, CleanFile, NameChars;
    if n > 0 {
      StagedAreClean(proposalId, uploads, synthetic, n - 1);
      if StageOne(proposalId, uploads[n - 1], synthetic, n).Ok? {
        StagedOneIsClean(proposalId, uploads[n - 1], synthetic, n);
      }
    }
  }

  /** The path of each file with content fits into a value, and a missing label has room for its numbered default. */
  predicate FilesFit(files: seq<StagedFile>) {
    forall i :: 0 <= i < |files| && files[i].path != "" ==>
      |files[i].path| <= 512 && (files[i].caption == "" ==> |"Original " + Decimal(FilledCount(files, i) + 1)| <= 512)
  }

  lemma {:induction false} FitExactly(files: seq<StagedFile>)
    ensures AllFit(Attachments(files)) <==> FilesFit(files)
  {
    hide FirstAttachments, FilledCount, Decimal;
    var at := AttachmentsAre(files, |files|);
    var refs := Attachments(files);
    if AllFit(refs) {
      forall i | 0 <= i < |files| && files[i].path != ""
        ensures |files[i].path| <= 512
        ensures files[i].caption == "" ==> |"Original " + Decimal(FilledCount(files, i) + 1)| <= 512
      {
        var k :| 0 <= k < |at| && at[k] == i;
        assert Fits(refs[k], k + 1);
      }
    }
    if FilesFit(files) {
      forall k | 0 <= k < |refs| ensures Fits(refs[k], k + 1) {
        assert files[at[k]].path != "";
      }
    }
  }

  /** The path fits into a value, and a missing label has room for its default. */
  predicate Fits(r: FileRef, index: nat) {
    |r.source| <= 512 && (r.caption == "" ==> |OriginalLabel(index)| <= 512)
  }

  predicate AllFit(refs: seq<FileRef>) { forall i :: 0 <= i < |refs| ==> Fits(refs[i], i + 1) }

  predicate FromStaged(staged: set<string>, r: FileRef) {
    && r.source in staged && r.source != "" && Tight(r.source) && Short(r.filename) && r.filename != ""
    && Short(r.caption) && Short(r.mediaType)
  }

  lemma {:induction false} AttachmentsAreStaged(files: seq<StagedFile>, staged: set<string>)
    requires forall f <- files :: CleanFile(f) && (f.path != "" ==> f.path in staged)
    ensures forall r <- Attachments(files) :: FromStaged(staged, r)
  {
    hide Short, Tight, FirstAttachments, IsSafeName, FilledCount;
    var at := AttachmentsAre(files, |files|);
    var refs := Attachments(files);
    forall r <- refs ensures FromStaged(staged, r) {
      var k :| 0 <= k < |refs| && refs[k] == r;
      assert files[at[k]] in files;
      SafeNameIsText(files[at[k]].filename);
    }
  }

  lemma {:induction false} LabelIsTight(index: nat)
    ensures Tight(OriginalLabel(index))
  {
    var s := Decimal(index);
    assert forall k :: 0 <= k < |s| ==> s[k] in s && IsDigit(s[k]);
    var t := OriginalLabel(index);
    assert t[|t| - 1] == s[|s| - 1];
    assert Printable("Original ") && NameChars(s);
    PrintableJoins("Original ", s);
  }

  lemma {:induction false} StagedAttachable(staged: set<string>, others: map<string, string>, r: FileRef, index: nat)
    requires FromStaged(staged, r)
    ensures Attachable(staged, others, r, index) <==> Fits(r, index)
  {
    hide Strip, Tight, Usable, Decimal, IsNameOf, FileName;
    UsableTight(r.source, "", 512);
    assert Strip(r.source) == r.source by { TightIsStripped(r.source); }
    LabelIsTight(index);
    DefaultMediaTypeIsShort();
    UsableTight(r.caption, OriginalLabel(index), 512);
    UsableTight(r.mediaType, DEFAULT_MEDIA_TYPE, 512);
    assert IsNameOf(staged, others, r.source, FileName(r.source)) by { NamedByPath(staged, others, r.source); }
    UsableTight(r.filename, FileName(r.source), 512);
  }

  lemma {:induction false} NamedByPath(staged: set<string>, others: map<string, string>, source: string)
    requires source in staged
    ensures IsNameOf(staged, others, source, FileName(source))
  {
    hide FileName;
  }

  lemma {:induction false} UsableTight(given: string, default: string, maxLength: nat)
    requires Tight(given) && (given == "" ==> Tight(default))
    ensures Usable(given, default, maxLength) <==> |if given == "" then default else given| <= maxLength
  {
    hide Strip;
    TightIsStripped(given);
    if given == "" { TightIsStripped(default); }
  }

  lemma {:induction false} TightIsStripped(s: string)
    requires Tight(s)
    ensures Strip(s) == s
  {
    if s == "" { NothingToStrip(); } else { StripOfSolid(s); }
  }

  /** The staged files of a proposal are attached exactly when each of them fits. */
  lemma {:induction false} StagedAttachedExactly(
    staged: set<string>, others: map<string, string>, documentId: string, files: seq<StagedFile>)
    requires forall f <- files :: CleanFile(f) && (f.path != "" ==> f.path in staged)
    ensures var refs := Attachments(files);
      Attach(staged, others, documentId, refs, |refs|).Ok? <==> FilesFit(files)
  {
    hide Attach, Attachable, Fits, FromStaged, CleanFile, FilesFit, Attachments;
    var refs := Attachments(files);
    FitExactly(files);
    AttachmentsAreStaged(files, staged);
    AttachedExactly(staged, others, documentId, refs, |refs|);
    forall i | 0 <= i < |refs| ensures Attachable(staged, others, refs[i], i + 1) <==> Fits(refs[i], i + 1) {
      assert refs[i] in refs;
      StagedAttachable(staged, others, refs[i], i + 1);
    }
  }

  /** The original a staged file becomes as the `k`-th of those with content. */
  predicate IsOriginalOfStaged(o: Original, f: StagedFile, k: nat, documentId: string) {
    && o.caption == (if f.caption == "" then "Original " + Decimal(k) else f.caption)
    && o.mediaType == (if f.mediaType == "" then "application/octet-stream" else f.mediaType)
    && o.path == "dokumente/" + documentId + "/original/" + f.filename
  }

  /** After attaching, the originals are the files with content, one for each, in order. */
  lemma {:induction false} StagedRecords(
    staged: set<string>, others: map<string, string>, documentId: string, files: seq<StagedFile>) returns (at: seq<nat>)
    requires forall f <- files :: CleanFile(f) && (f.path != "" ==> f.path in staged)
    requires var refs := Attachments(files); Attach(staged, others, documentId, refs, |refs|).Ok?
    ensures var refs := Attachments(files); var originals := Attach(staged, others, documentId, refs, |refs|).value;
      && ListsFilled(at, files, |files|) && |originals| == |at|
      && forall k :: 0 <= k < |at| ==> IsOriginalOfStaged(originals[k], files[at[k]], k + 1, documentId)
  {
    hide Attach, FirstAttachments, IsOriginalOf, IsOriginalOfStaged, FilledCount, CleanFile, NameSources, Strip, FromStaged;
    var refs := Attachments(files);
    at := AttachmentsAre(files, |files|);
    AttachmentsAreStaged(files, staged);
    var own := AttachRecords(staged, others, documentId, refs, |refs|);
    forall r <- refs ensures Strip(r.source) != "" { StagedSourceIsNamed(staged, r); }
    AllNamed(own, refs);
    var originals := Attach(staged, others, documentId, refs, |refs|).value;
    forall k | 0 <= k < |at| ensures IsOriginalOfStaged(originals[k], files[at[k]], k + 1, documentId) {
      assert files[at[k]] in files;
      assert refs[k] == RefOf(files[at[k]]) && own[k] == k && refs[k] in refs;
      StagedSourceIsNamed(staged, refs[k]);
      StagedOriginal(staged, others, originals[k], files[at[k]], k + 1, documentId);
    }
  }

  lemma {:induction false} StagedSourceIsNamed(staged: set<string>, r: FileRef)
    requires FromStaged(staged, r)
    ensures Strip(r.source) == r.source != ""
  {
    hide Strip, Short;
    TightIsStripped(r.source);
  }

  /** Where every entry names a source, the positions are all there are. */
  lemma {:induction false} AllNamed(at: seq<nat>, refs: seq<FileRef>)
    requires NameSources(at, refs, |refs|) && forall r <- refs :: Strip(r.source) != ""
    ensures |at| == |refs| && forall k :: 0 <= k < |at| ==> at[k] == k
  {
    hide Strip;
    forall i | 0 <= i < |refs| ensures i in at { assert refs[i] in refs; }
    Consecutive(at, |refs|);
  }

  lemma {:induction false} Consecutive(at: seq<nat>, n: nat)
    requires forall j, k :: 0 <= j < k < |at| ==> at[j] < at[k]
    requires forall i :: 0 <= i < n <==> i in at
    ensures |at| == n && forall k :: 0 <= k < |at| ==> at[k] == k
    decreases n
  {
    if n == 0 {
      if at != [] { assert false; }
    } else {
      assert n - 1 in at;
      var k :| 0 <= k < |at| && at[k] == n - 1;
      assert at[|at| - 1] in at;
      var front := at[..|at| - 1];
      assert at == front + [n - 1];
      forall i ensures 0 <= i < n - 1 <==> i in front {
        if i in front {
          var j :| 0 <= j < |front| && front[j] == i;
          assert at[j] == i && i in at;
        }
        if 0 <= i < n - 1 { assert i in at; }
      }
      Consecutive(front, n - 1);
    }
  }

  lemma {:induction false} StagedOriginal(
    staged: set<string>, others: map<string, string>, o: Original, f: StagedFile, k: nat, documentId: string)
    requires CleanFile(f) && f.path in staged
    requires IsAttached(o, RefOf(f), k, staged, others, documentId)
    ensures IsOriginalOfStaged(o, f, k, documentId)
  {
    hide Strip, SafeFilename, Tight, Decimal, NameAt, IsSafeName;
    TightIsStripped(f.filename);
    TightIsStripped(f.caption);
    TightIsStripped(f.mediaType);
    LabelIsTight(k);
    TightIsStripped(OriginalLabel(k));
    DefaultMediaTypeIsShort();
    TightIsStripped(DEFAULT_MEDIA_TYPE);
    SafeNameStays(f.filename, "");
    assert f.filename != "" by { SafeNameIsText(f.filename); }
  }

  lemma {:induction false} SafeNameIsText(s: string)
    requires IsSafeName(s)
    ensures s != ""
  {
  }
}
