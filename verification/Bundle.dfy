/**
 The .noomabundle format (internal/bundle/bundle.go): what Write writes, what
 Verify accepts, and what Extract unpacks. A zip is its entries in order; the
 hash, the case folding and the manifest's encoding are parameters.
 */
module Bundle {
  import opened Options
  import opened BundleNames
  import Text

  newtype byte = x: int | 0 <= x < 256

  type Bytes = seq<byte>

  const FORMAT := 1
  const MANIFEST_NAME := "manifest.json"
  const MAX_MANIFEST_BYTES := 0x10_0000
  const REQUIRED: seq<string> := ["nooma.db", "nooma.yml"]

  datatype File = File(path: string, size: int, sha256: string)

  datatype Head = Head(noomaVersion: string, schemaVersion: int, createdAt: int, embeddingModels: seq<(string, int)>)

  datatype Manifest = Manifest(format: int, head: Head, files: seq<File>)

  /** A zip entry: what its header declares, and what it inflates to; nothing when it cannot be read. */
  datatype Entry = Entry(name: string, regular: bool, declared: nat, content: Option<Bytes>)

  /** A file to bundle; nothing when it cannot be read. */
  datatype Source = Source(name: string, content: Option<Bytes>)

  datatype Codec = Codec(
    upper: char -> char,
    fold: string -> string,
    hash: Bytes -> string,
    encode: Manifest -> Bytes,
    decode: Bytes -> Option<Manifest>)

  // ---- writing ----

  function Names(entries: seq<Entry>): (names: seq<string>)
    ensures |names| == |entries|
  {
    seq(|entries|, i requires 0 <= i < |entries| => entries[i].name)
  }

  function Paths(files: seq<File>): (paths: seq<string>)
    ensures |paths| == |files|
  {
    seq(|files|, i requires 0 <= i < |files| => files[i].path)
  }

  predicate Distinct<T(==)>(s: seq<T>) {
    forall i, j :: 0 <= i < j < |s| ==> s[i] != s[j]
  }

  /** Every source has a safe name of its own, none the manifest's. */
  ghost predicate Bundleable(sources: seq<Source>, c: Codec) {
    && (forall k :: 0 <= k < |sources| ==> Safe(sources[k].name, c.upper) && sources[k].name != MANIFEST_NAME)
    && (forall i, j :: 0 <= i < j < |sources| ==> sources[i].name != sources[j].name)
  }

  ghost predicate Readable(sources: seq<Source>) {
    forall k :: 0 <= k < |sources| ==> sources[k].content.Some?
  }

  function EntryOf(s: Source): Entry
    requires s.content.Some?
  {
    Entry(s.name, true, |s.content.value|, s.content)
  }

  function FileOf(s: Source, c: Codec): File
    requires s.content.Some?
  {
    File(s.name, |s.content.value|, c.hash(s.content.value))
  }

  /** The bundle of these sources: each one's entry, in order, then the manifest's. */
  ghost predicate IsBundleOf(zip: seq<Entry>, m: Manifest, head: Head, sources: seq<Source>, c: Codec) {
    && Readable(sources)
    && m.format == FORMAT && m.head == head && |m.files| == |sources| && |zip| == |sources| + 1
    && (forall k :: 0 <= k < |sources| ==> m.files[k] == FileOf(sources[k], c) && zip[k] == EntryOf(sources[k]))
    && zip[|sources|] == Entry(MANIFEST_NAME, true, |c.encode(m)|, Some(c.encode(m)))
  }

  /** The first k sources' entries and nothing else. */
  ghost predicate Begun(zip: seq<Entry>, sources: seq<Source>, k: nat) {
    && k <= |sources| && |zip| == k
    && forall j :: 0 <= j < k ==> sources[j].content.Some? && zip[j] == EntryOf(sources[j])
  }

  /** Writes the zip to an output of which the k-th part may be refused: the sources in order, the manifest, and the
      end. Nothing is written when a name is refused. */
  method Write(head: Head, sources: seq<Source>, c: Codec, taken: nat -> bool)
    returns (m: Option<Manifest>, zip: seq<Entry>)
    ensures m.Some? <==> Bundleable(sources, c) && Readable(sources) && forall k: nat :: k <= |sources| + 1 ==> taken(k)
    ensures m.Some? ==> IsBundleOf(zip, m.value, head, sources, c)
    ensures !Bundleable(sources, c) ==> zip == []
    // what is written is only ever the sources' own bytes, in order, and then the manifest of them all
    ensures (exists k :: Begun(zip, sources, k)) || exists whole :: IsBundleOf(zip, whole, head, sources, c)
  {
    hide Safe;
    var seen: set<string> := {MANIFEST_NAME};
    m, zip := None, [];
    assert Begun(zip, sources, 0);
    for k := 0 to |sources|
      invariant forall n :: n in seen <==> n == MANIFEST_NAME || exists j :: 0 <= j < k && sources[j].name == n
      invariant Bundleable(sources[..k], c)
    {
      var ok := CheckName(sources[k].name, c.upper);
      if !ok || sources[k].name in seen {
        return;
      }
      seen := seen + {sources[k].name};
    }
    assert sources[..|sources|] == sources;
    hide Bundleable;
    var files: seq<File> := [];
    for k := 0 to |sources|
      invariant Begun(zip, sources, k) && |files| == k
      invariant forall j :: 0 <= j < k ==> taken(j) && files[j] == FileOf(sources[j], c)
    {
      if !sources[k].content.Some? || !taken(k) {
        return;
      }
      zip, files := zip + [EntryOf(sources[k])], files + [FileOf(sources[k], c)];
    }
    if !taken(|sources|) {
      return;
    }
    var whole := Manifest(FORMAT, head, files);
    zip := zip + [Entry(MANIFEST_NAME, true, |c.encode(whole)|, Some(c.encode(whole)))];
    assert IsBundleOf(zip, whole, head, sources, c);
    if taken(|sources| + 1) {
      m := Some(whole);
    }
  }

  // ---- reading ----

  /** What is read of an entry when at most `limit` bytes are taken. */
  function ReadUpTo(e: Entry, limit: nat): Option<Bytes> {
    match e.content
    case None => None
    case Some(b) => if |b| > limit then Some(b[..limit]) else Some(b)
  }

  /** The entry holds exactly what the manifest says of the file. */
  predicate Matches(e: Entry, f: File, c: Codec) {
    e.declared == f.size && e.content.Some? && |e.content.value| == f.size && c.hash(e.content.value) == f.sha256
  }

  /** Compares an entry with its file, and takes no more of it than the listed size and one byte. */
  method CheckEntry(e: Entry, f: File, c: Codec) returns (ok: bool, taken: nat)
    ensures ok <==> Matches(e, f, c)
    ensures taken <= if f.size < 0 then 0 else f.size + 1
  {
    ok, taken := false, 0;
    if f.size < 0 || e.declared != f.size {
      return;
    }
    var got := ReadUpTo(e, f.size + 1);
    if got.Some? {
      taken := |got.value|;
      ok := taken == f.size && c.hash(got.value) == f.sha256;
    }
  }

  /** The manifest entry's whole content, decoded, when it is within the bound. */
  function ManifestIn(e: Entry, c: Codec): Option<Manifest> {
    if e.content.None? || |e.content.value| > MAX_MANIFEST_BYTES then None else c.decode(e.content.value)
  }

  method ReadManifest(e: Entry, c: Codec) returns (m: Option<Manifest>)
    ensures m == ManifestIn(e, c)
  {
    var raw := ReadUpTo(e, MAX_MANIFEST_BYTES + 1);
    if raw.None? || |raw.value| > MAX_MANIFEST_BYTES {
      return None;
    }
    m := c.decode(raw.value);
  }

  /** One listed file: a safe name, and an entry that matches. */
  ghost predicate FileHolds(zip: seq<Entry>, f: File, c: Codec) {
    Safe(f.path, c.upper) && exists i :: 0 <= i < |zip| && zip[i].name == f.path && Matches(zip[i], f, c)
  }

  /** The zip and its manifest agree exactly: entry for entry, no name twice however it is cased, nothing unlisted. */
  ghost predicate Agrees(zip: seq<Entry>, m: Manifest, c: Codec) {
    && ZipIsClean(zip, c)
    && HoldsManifest(zip, m, c)
    && m.format == FORMAT
    && (forall k :: 0 <= k < |m.files| ==> FileHolds(zip, m.files[k], c))
    && (forall k :: 0 <= k < |REQUIRED| ==> REQUIRED[k] in Paths(m.files))
    && (forall i :: 0 <= i < |zip| ==> zip[i].name == MANIFEST_NAME || zip[i].name in Paths(m.files))
  }

  ghost predicate HoldsManifest(zip: seq<Entry>, m: Manifest, c: Codec) {
    exists i :: 0 <= i < |zip| && zip[i].name == MANIFEST_NAME && ManifestIn(zip[i], c) == Some(m)
  }

  ghost predicate ZipIsClean(zip: seq<Entry>, c: Codec) {
    && (forall i, j :: 0 <= i < j < |zip| ==> zip[i].name != zip[j].name)
    && (forall i, j :: 0 <= i < j < |zip| ==> c.fold(zip[i].name) != c.fold(zip[j].name))
    && (forall i :: 0 <= i < |zip| ==> zip[i].regular)
  }

  /** The entries by name, and whether they are clean; None when a name is there twice. */
  method Index(zip: seq<Entry>, c: Codec) returns (entries: Option<map<string, Entry>>, ok: bool)
    ensures entries.None? ==> !ZipIsClean(zip, c)
    ensures entries.Some? ==> (ok <==> ZipIsClean(zip, c))
    ensures entries.Some? ==> Indexed(entries.value, zip)
  {
    hide ZipIsClean, Indexed, Folds, Names;
    var byName: map<string, Entry>, folded: set<string> := map[], {};
    ok := true;
    NothingIndexed(c);
    assert zip[..0] == [];
    for i := 0 to |zip|
      invariant ok <==> ZipIsClean(zip[..i], c)
      invariant Indexed(byName, zip[..i])
      invariant folded == Folds(zip[..i], c)
    {
      CleanNext(zip, i, c);
      if zip[i].name in byName {
        NameTwice(zip, i, byName, c);
        return None, false;
      }
      IndexedNext(zip, i, byName);
      if !zip[i].regular || c.fold(zip[i].name) in folded {
        ok := false;
      }
      byName := byName[zip[i].name := zip[i]];
      folded := folded + {c.fold(zip[i].name)};
    }
    assert zip[..|zip|] == zip;
    entries := Some(byName);
  }

  lemma NothingIndexed(c: Codec)
    ensures ZipIsClean([], c) && Indexed(map[], []) && Folds([], c) == {}
  {
  }

  function Folds(zip: seq<Entry>, c: Codec): set<string> {
    set i | 0 <= i < |zip| :: c.fold(zip[i].name)
  }

  lemma CleanNext(zip: seq<Entry>, i: nat, c: Codec)
    requires i < |zip|
    ensures Folds(zip[..i + 1], c) == Folds(zip[..i], c) + {c.fold(zip[i].name)}
    ensures ZipIsClean(zip[..i + 1], c) <==>
            ZipIsClean(zip[..i], c) && zip[i].name !in Names(zip[..i]) &&
              c.fold(zip[i].name) !in Folds(zip[..i], c) && zip[i].regular
  {
    assert zip[..i + 1] == zip[..i] + [zip[i]];
    CleanAppend(zip[..i], zip[i], c);
  }

  lemma CleanAppend(before: seq<Entry>, e: Entry, c: Codec)
    ensures Folds(before + [e], c) == Folds(before, c) + {c.fold(e.name)}
    ensures ZipIsClean(before + [e], c) <==>
            ZipIsClean(before, c) && e.name !in Names(before) && c.fold(e.name) !in Folds(before, c) && e.regular
  {
    var after := before + [e];
    assert after[|before|] == e && forall k :: 0 <= k < |before| ==> after[k] == before[k];
    assert forall k :: 0 <= k < |before| ==> Names(before)[k] == before[k].name && c.fold(before[k].name) in Folds(before, c);
  }

  lemma NameTwice(zip: seq<Entry>, i: nat, entries: map<string, Entry>, c: Codec)
    requires i < |zip| && Indexed(entries, zip[..i]) && zip[i].name in entries
    ensures !ZipIsClean(zip, c)
  {
  }

  lemma IndexedNext(zip: seq<Entry>, i: nat, entries: map<string, Entry>)
    requires i < |zip| && Indexed(entries, zip[..i]) && zip[i].name !in entries
    ensures Indexed(entries[zip[i].name := zip[i]], zip[..i + 1]) && zip[i].name !in Names(zip[..i])
  {
    var before, after := zip[..i], zip[..i + 1];
    assert after == before + [zip[i]];
    assert forall j :: 0 <= j < i ==> after[j] == before[j];
    assert after[i] == zip[i];
  }

  ghost predicate Indexed(entries: map<string, Entry>, zip: seq<Entry>) {
    && (forall i, j :: 0 <= i < j < |zip| ==> zip[i].name != zip[j].name)
    && (forall i :: 0 <= i < |zip| ==> zip[i].name in entries && entries[zip[i].name] == zip[i])
    && (forall n :: n in entries ==> exists i :: 0 <= i < |zip| && zip[i].name == n)
  }

  method Verify(zip: seq<Entry>, c: Codec) returns (r: Option<Manifest>)
    ensures r.Some? ==> Agrees(zip, r.value, c)
    ensures r.None? ==> forall m :: !Agrees(zip, m, c)
  {
    var index, ok := Index(zip, c);
    if index.None? {
      return None;
    }
    var entries := index.value;
    if MANIFEST_NAME !in entries {
      return None;
    }
    var read := ReadManifest(entries[MANIFEST_NAME], c);
    OneManifest(zip, entries, c);
    if read.None? || read.value.format < 1 || read.value.format > FORMAT {
      return None;
    }
    var m := read.value;
    var fits := CheckFiles(zip, entries, m, c);
    r := if ok && fits then Some(m) else None;
  }

  /** Only the entry of that name can be the manifest. */
  lemma OneManifest(zip: seq<Entry>, entries: map<string, Entry>, c: Codec)
    requires Indexed(entries, zip) && MANIFEST_NAME in entries
    ensures forall m :: Agrees(zip, m, c) ==> ManifestIn(entries[MANIFEST_NAME], c) == Some(m)
    ensures exists i :: 0 <= i < |zip| && zip[i].name == MANIFEST_NAME && zip[i] == entries[MANIFEST_NAME]
  {
  }

  ghost predicate FilesAgree(zip: seq<Entry>, m: Manifest, c: Codec) {
    && (forall k :: 0 <= k < |m.files| ==> FileHolds(zip, m.files[k], c))
    && (forall k :: 0 <= k < |REQUIRED| ==> REQUIRED[k] in Paths(m.files))
    && (forall i :: 0 <= i < |zip| ==> zip[i].name == MANIFEST_NAME || zip[i].name in Paths(m.files))
  }

  method CheckFiles(zip: seq<Entry>, entries: map<string, Entry>, m: Manifest, c: Codec) returns (ok: bool)
    requires Indexed(entries, zip)
    ensures ok <==> FilesAgree(zip, m, c)
  {
    hide Safe;
    ok := true;
    var listed := {MANIFEST_NAME};
    for k := 0 to |m.files|
      invariant ok <==> forall j :: 0 <= j < k ==> FileHolds(zip, m.files[j], c)
      invariant MANIFEST_NAME in listed && forall n :: n in listed ==> n == MANIFEST_NAME || n in Paths(m.files)
      invariant ok ==> forall j :: 0 <= j < k ==> m.files[j].path in listed
    {
      var f := m.files[k];
      assert Paths(m.files)[k] == f.path;
      var safe := CheckName(f.path, c.upper);
      if !safe {
        ok := false;
        continue;
      }
      listed := listed + {f.path};
      if f.path !in entries {
        ok := false;
        continue;
      }
      var matches, _ := CheckEntry(entries[f.path], f, c);
      ok := ok && matches;
    }
    assert ok ==> forall n :: n in Paths(m.files) ==> n in listed;
    for k := 0 to |REQUIRED|
      invariant ok ==> forall j :: 0 <= j < |m.files| ==> FileHolds(zip, m.files[j], c)
      invariant ok ==> forall n :: n in Paths(m.files) ==> n in listed
      invariant ok ==> forall j :: 0 <= j < k ==> REQUIRED[j] in Paths(m.files)
      invariant !ok ==> !FilesAgree(zip, m, c)
    {
      assert REQUIRED[k] != MANIFEST_NAME;
      if REQUIRED[k] !in listed {
        ok := false;
      }
    }
    for i := 0 to |zip|
      invariant ok ==> forall j :: 0 <= j < |m.files| ==> FileHolds(zip, m.files[j], c)
      invariant ok ==> forall n :: n in Paths(m.files) ==> n in listed
      invariant ok ==> forall j :: 0 <= j < |REQUIRED| ==> REQUIRED[j] in Paths(m.files)
      invariant ok ==> forall j :: 0 <= j < i ==> zip[j].name == MANIFEST_NAME || zip[j].name in Paths(m.files)
      invariant !ok ==> !FilesAgree(zip, m, c)
    {
      if zip[i].name !in listed {
        assert ok ==> zip[i].name !in Paths(m.files);
        ok := false;
      }
    }
  }

  // ---- unpacking ----

  /** Where a file goes, relative to the directory unpacked into. */
  type Path = seq<string>

  datatype Node = Folder | Content(bytes: Bytes)

  datatype Placed = Placed(path: Path, bytes: Bytes)

  /** The directory unpacked into. Its own operations fail when a path is in the way, and, when the disk is
      faulty, whenever they like. */
  class Disk {
    const faulty: bool
    var nodes: map<Path, Node>

    constructor (faulty: bool)
      ensures this.faulty == faulty && nodes == map[]
    {
      this.faulty, nodes := faulty, map[];
    }

    /** Every folder down to path, those missing made. */
    method MkdirAll(path: Path) returns (ok: bool)
      modifies this
      ensures Grown(old(nodes), nodes, path)
      ensures ok ==> Made(nodes, path)
      ensures !ok && !faulty ==> FileOnTheWay(nodes, path)
    {
      for k := 1 to |path| + 1
        invariant Grown(old(nodes), nodes, path)
        invariant forall p :: p != [] && |p| < k && Above(p, path) ==> p in nodes && nodes[p] == Folder
      {
        var next := path[..k];
        assert forall p :: |p| == k && Above(p, path) ==> p == next;
        var fails: bool := *;
        if (faulty && fails) || (next in nodes && nodes[next].Content?) {
          return false;
        }
        if next !in nodes {
          nodes := nodes[next := Folder];
        }
      }
      ok := true;
    }

    /** A new file: never one that is there already. */
    method CreateNew(path: Path, bytes: Bytes) returns (ok: bool)
      modifies this
      ensures ok ==> path !in old(nodes) && nodes == old(nodes)[path := Content(bytes)]
      ensures !ok ==> nodes == old(nodes)
      ensures !ok && !faulty ==> path in nodes
    {
      var fails: bool := *;
      if (faulty && fails) || path in nodes {
        return false;
      }
      nodes := nodes[path := Content(bytes)];
      ok := true;
    }
  }

  /** p is q or a folder q is in. */
  predicate Above(p: Path, q: Path) {
    |p| <= |q| && q[..|p|] == p
  }

  ghost predicate Grown(was: map<Path, Node>, nodes: map<Path, Node>, path: Path) {
    && (forall p :: p in was ==> p in nodes && nodes[p] == was[p])
    && (forall p :: p in nodes && p !in was ==> p != [] && Above(p, path) && nodes[p] == Folder)
  }

  ghost predicate Made(nodes: map<Path, Node>, path: Path) {
    forall p :: p != [] && Above(p, path) ==> p in nodes && nodes[p] == Folder
  }

  ghost predicate FileOnTheWay(nodes: map<Path, Node>, path: Path) {
    exists p :: p != [] && Above(p, path) && p in nodes && nodes[p].Content?
  }

  /** Exactly these files, and the folders on the way to them. */
  ghost predicate IsTree(nodes: map<Path, Node>, done: seq<Placed>) {
    && (forall i :: 0 <= i < |done| ==> done[i].path in nodes && nodes[done[i].path] == Content(done[i].bytes))
    && (forall p :: p in nodes <==> p != [] && OnTheWay(p, done))
    && (forall p :: p in nodes && nodes[p].Content? ==> PlacedAt(p, done))
  }

  ghost predicate OnTheWay(p: Path, done: seq<Placed>) {
    exists i :: 0 <= i < |done| && Above(p, done[i].path)
  }

  ghost predicate PlacedAt(p: Path, done: seq<Placed>) {
    exists i :: 0 <= i < |done| && p == done[i].path
  }

  /** The new path is neither on the way to one already placed nor past one. */
  ghost predicate Clear(path: Path, done: seq<Placed>) {
    forall i :: 0 <= i < |done| ==> !Above(path, done[i].path) && !Above(done[i].path, path)
  }

  function PathOf(f: File): Path {
    Text.Split(f.path, '/')
  }

  /** The last entry of that name. */
  function Lookup(zip: seq<Entry>, name: string): (e: Option<Entry>)
    ensures e.Some? ==> e.value in zip && e.value.name == name
    ensures e.None? ==> forall i :: 0 <= i < |zip| ==> zip[i].name != name
  {
    if zip == [] then None
    else if zip[|zip| - 1].name == name then Some(zip[|zip| - 1])
    else Lookup(zip[..|zip| - 1], name)
  }

  /** The listed file can be unpacked from this zip as it stands. */
  ghost predicate Unpacks(zip: seq<Entry>, f: File, c: Codec) {
    Safe(f.path, c.upper) && Lookup(zip, f.path).Some? && Lookup(zip, f.path).value.regular &&
      Matches(Lookup(zip, f.path).value, f, c)
  }

  function Unpacked(zip: seq<Entry>, files: seq<File>): (done: seq<Placed>)
    ensures |done| == |files|
  {
    seq(|files|, i requires 0 <= i < |files| =>
      Placed(PathOf(files[i]), match Lookup(zip, files[i].path) case Some(Entry(_, _, _, Some(b))) => b case _ => []))
  }

  /** Unpacks one file: its folders, then a new file with its bytes, whose size and hash are checked last. */
  method ExtractFile(e: Entry, f: File, disk: Disk, ghost done: seq<Placed>, c: Codec) returns (ok: bool)
    requires IsTree(disk.nodes, done) && PathOf(f) != []
    modifies disk
    ensures forall p :: p in old(disk.nodes) ==> p in disk.nodes && disk.nodes[p] == old(disk.nodes)[p]
    ensures ok ==> e.regular && Matches(e, f, c) && Clear(PathOf(f), done)
    ensures ok ==> IsTree(disk.nodes, done + [Placed(PathOf(f), e.content.value)])
    ensures !disk.faulty && !ok ==> !e.regular || !Matches(e, f, c) || !Clear(PathOf(f), done)
  {
    hide IsTree, Clear, PathOf, Made, FileOnTheWay, OnTheWay, PlacedAt, Above;
    if !e.regular || f.size < 0 || e.declared != f.size {
      return false;
    }
    var path := PathOf(f);
    var got := ReadUpTo(e, f.size + 1);
    ghost var was := disk.nodes;
    var made := disk.MkdirAll(path[..|path| - 1]);
    ghost var nodes := disk.nodes;
    if !made {
      if !disk.faulty {
        FileInTheWay(was, nodes, done, path);
      }
      return false;
    }
    PathIsTaken(was, nodes, done, path);
    if got.None? {
      return false;
    }
    var created := disk.CreateNew(path, got.value);
    if !created {
      return false;
    }
    ok := |got.value| == f.size && c.hash(got.value) == f.sha256;
    if ok {
      TreeGrows(was, nodes, done, path, got.value);
    }
  }

  lemma FileInTheWay(was: map<Path, Node>, nodes: map<Path, Node>, done: seq<Placed>, path: Path)
    requires IsTree(was, done) && path != []
    requires Grown(was, nodes, path[..|path| - 1]) && FileOnTheWay(nodes, path[..|path| - 1])
    ensures !Clear(path, done)
  {
    var folder := path[..|path| - 1];
    var p :| p != [] && Above(p, folder) && p in nodes && nodes[p].Content?;
    assert p in was && PlacedAt(p, done);
    AboveFolder(p, path);
  }

  lemma AboveFolder(p: Path, path: Path)
    requires path != []
    ensures Above(p, path) <==> p == path || Above(p, path[..|path| - 1])
  {
  }

  /** Once its folders are made, the path is taken exactly when it runs into a file already placed. */
  lemma PathIsTaken(was: map<Path, Node>, nodes: map<Path, Node>, done: seq<Placed>, path: Path)
    requires IsTree(was, done) && path != []
    requires Grown(was, nodes, path[..|path| - 1]) && Made(nodes, path[..|path| - 1])
    ensures path in nodes <==> !Clear(path, done)
  {
    if path in nodes {
      IsOnTheWay(was, nodes, done, path);
    }
    hide IsTree, Grown, Made, Above, OnTheWay;
    if !Clear(path, done) {
      var i :| 0 <= i < |done| && (Above(path, done[i].path) || Above(done[i].path, path));
      RunsInto(was, nodes, done, path, i);
    }
  }

  lemma IsOnTheWay(was: map<Path, Node>, nodes: map<Path, Node>, done: seq<Placed>, path: Path)
    requires IsTree(was, done) && path != [] && path in nodes && Grown(was, nodes, path[..|path| - 1])
    ensures !Clear(path, done)
  {
    assert path in was && OnTheWay(path, done);
  }

  lemma RunsInto(was: map<Path, Node>, nodes: map<Path, Node>, done: seq<Placed>, path: Path, i: nat)
    requires IsTree(was, done) && path != [] && i < |done|
    requires Grown(was, nodes, path[..|path| - 1]) && Made(nodes, path[..|path| - 1])
    requires Above(path, done[i].path) || Above(done[i].path, path)
    ensures path in nodes
  {
    if Above(path, done[i].path) {
      assert OnTheWay(path, done);
    } else {
      AboveFolder(done[i].path, path);
    }
  }

  lemma TreeGrows(was: map<Path, Node>, nodes: map<Path, Node>, done: seq<Placed>, path: Path, bytes: Bytes)
    requires IsTree(was, done) && path != [] && path !in nodes
    requires Grown(was, nodes, path[..|path| - 1]) && Made(nodes, path[..|path| - 1])
    ensures IsTree(nodes[path := Content(bytes)], done + [Placed(path, bytes)])
  {
    var after, placed := nodes[path := Content(bytes)], done + [Placed(path, bytes)];
    hide Above, OnTheWay, PlacedAt;
    forall p
      ensures p in after <==> p != [] && OnTheWay(p, placed)
    {
      AboveFolder(p, path);
      OnTheWayNext(p, done, Placed(path, bytes));
    }
    forall p | p in after && after[p].Content?
      ensures PlacedAt(p, placed)
    {
      PlacedNext(p, done, Placed(path, bytes));
    }
  }

  lemma PlacedNext(p: Path, done: seq<Placed>, next: Placed)
    ensures PlacedAt(p, done + [next]) <==> PlacedAt(p, done) || p == next.path
  {
    var placed := done + [next];
    if PlacedAt(p, done) {
      var i :| 0 <= i < |done| && p == done[i].path;
      assert placed[i] == done[i];
    }
    assert placed[|done|] == next;
  }

  lemma OnTheWayNext(p: Path, done: seq<Placed>, next: Placed)
    ensures OnTheWay(p, done + [next]) <==> OnTheWay(p, done) || Above(p, next.path)
  {
    var placed := done + [next];
    hide Above;
    if OnTheWay(p, done) {
      var i :| 0 <= i < |done| && Above(p, done[i].path);
      assert placed[i] == done[i];
    }
    assert placed[|done|] == next;
  }

  /** No listed path is another's, nor a folder of another's. */
  ghost predicate Apart(files: seq<File>) {
    forall i, j :: 0 <= i < j < |files| ==>
         !Above(PathOf(files[i]), PathOf(files[j])) && !Above(PathOf(files[j]), PathOf(files[i]))
  }

  method Extract(zip: seq<Entry>, m: Manifest, disk: Disk, c: Codec) returns (ok: bool)
    requires disk.nodes == map[]
    modifies disk
    // what was unpacked is what the manifest names, checked again as it was written
    ensures ok ==> Apart(m.files) && forall k :: 0 <= k < |m.files| ==> Unpacks(zip, m.files[k], c)
    ensures ok ==> IsTree(disk.nodes, Unpacked(zip, m.files))
    // and nothing else than these makes it fail
    ensures !disk.faulty && Apart(m.files) && (forall k :: 0 <= k < |m.files| ==> Unpacks(zip, m.files[k], c)) ==> ok
  {
    EmptyTree();
    hide IsTree, Safe, Clear, Above;
    for k := 0 to |m.files|
      invariant Apart(m.files[..k]) && forall j :: 0 <= j < k ==> Unpacks(zip, m.files[j], c)
      invariant IsTree(disk.nodes, Unpacked(zip, m.files[..k]))
    {
      var f := m.files[k];
      ghost var done := Unpacked(zip, m.files[..k]);
      ApartNext(zip, m.files, k);
      var safe := CheckName(f.path, c.upper);
      if !safe {
        return false;
      }
      var found := Lookup(zip, f.path);
      if found.None? {
        return false;
      }
      var extracted := ExtractFile(found.value, f, disk, done, c);
      if !extracted {
        return false;
      }
      assert Unpacked(zip, m.files[..k + 1]) == done + [Placed(PathOf(f), found.value.content.value)];
    }
    assert m.files[..|m.files|] == m.files;
    ok := true;
  }

  lemma EmptyTree()
    ensures IsTree(map[], [])
  {
  }

  lemma ApartNext(zip: seq<Entry>, files: seq<File>, k: nat)
    requires k < |files|
    ensures Apart(files[..k + 1]) <==> Apart(files[..k]) && Clear(PathOf(files[k]), Unpacked(zip, files[..k]))
    ensures Apart(files) ==> Apart(files[..k + 1])
  {
    var done := Unpacked(zip, files[..k]);
    assert forall i :: 0 <= i < k ==>
             done[i].path == PathOf(files[i]) == PathOf(files[..k][i]) == PathOf(files[..k + 1][i]);
  }

  // ---- the round trip ----

  function SourceNames(sources: seq<Source>): (names: seq<string>)
    ensures |names| == |sources|
  {
    seq(|sources|, i requires 0 <= i < |sources| => sources[i].name)
  }

  /** What Verify asks of a bundle that Write does not: the required files, names apart however they are cased,
      and a manifest within the bound. */
  ghost predicate Acceptable(m: Manifest, sources: seq<Source>, c: Codec) {
    && (forall k :: 0 <= k < |REQUIRED| ==> REQUIRED[k] in SourceNames(sources))
    && (forall i, j :: 0 <= i < j < |sources| ==> c.fold(sources[i].name) != c.fold(sources[j].name))
    && (forall i :: 0 <= i < |sources| ==> c.fold(sources[i].name) != c.fold(MANIFEST_NAME))
    && |c.encode(m)| <= MAX_MANIFEST_BYTES
  }

  lemma WrittenIsClean(zip: seq<Entry>, m: Manifest, head: Head, sources: seq<Source>, c: Codec)
    requires Bundleable(sources, c) && IsBundleOf(zip, m, head, sources, c)
    ensures ZipIsClean(zip, c) <==>
            && (forall i, j :: 0 <= i < j < |sources| ==> c.fold(sources[i].name) != c.fold(sources[j].name))
            && (forall i :: 0 <= i < |sources| ==> c.fold(sources[i].name) != c.fold(MANIFEST_NAME))
  {
  }

  lemma WrittenFilesAgree(zip: seq<Entry>, m: Manifest, head: Head, sources: seq<Source>, c: Codec)
    requires Bundleable(sources, c) && IsBundleOf(zip, m, head, sources, c)
    ensures Paths(m.files) == SourceNames(sources)
    ensures forall k :: 0 <= k < |m.files| ==> FileHolds(zip, m.files[k], c)
    ensures forall i :: 0 <= i < |zip| ==> zip[i].name == MANIFEST_NAME || zip[i].name in Paths(m.files)
  {
    hide Safe;
    forall k | 0 <= k < |m.files|
      ensures FileHolds(zip, m.files[k], c)
    {
      assert zip[k].name == m.files[k].path && Matches(zip[k], m.files[k], c);
    }
    forall i | 0 <= i < |sources|
      ensures zip[i].name in Paths(m.files)
    {
      assert Paths(m.files)[i] == zip[i].name;
    }
  }

  /** Verify accepts what Write wrote, as the manifest Write returned, exactly when the bundle holds the required
      files, no two names fold to one and the manifest is within the bound; given that the manifest decodes to itself. */
  lemma VerifyAcceptsWhatWasWrittenExactlyWhen(zip: seq<Entry>, m: Manifest, head: Head, sources: seq<Source>, c: Codec)
    requires Bundleable(sources, c) && IsBundleOf(zip, m, head, sources, c)
    requires c.decode(c.encode(m)) == Some(m)
    ensures Agrees(zip, m, c) <==> Acceptable(m, sources, c)
    ensures forall other :: Agrees(zip, other, c) ==> other == m
  {
    WrittenIsClean(zip, m, head, sources, c);
    WrittenFilesAgree(zip, m, head, sources, c);
    WrittenManifestEntry(zip, m, head, sources, c);
    hide FileHolds, ZipIsClean, HoldsManifest, IsBundleOf, Bundleable;
  }

  lemma WrittenManifestEntry(zip: seq<Entry>, m: Manifest, head: Head, sources: seq<Source>, c: Codec)
    requires Bundleable(sources, c) && IsBundleOf(zip, m, head, sources, c) && c.decode(c.encode(m)) == Some(m)
    ensures m.format == FORMAT
    ensures forall other :: HoldsManifest(zip, other, c) <==> other == m && |c.encode(m)| <= MAX_MANIFEST_BYTES
  {
  }

  /** Everything a verified bundle lists can be unpacked, so extracting it can fail only on paths that collide. */
  lemma VerifiedFilesUnpack(zip: seq<Entry>, m: Manifest, c: Codec)
    requires Agrees(zip, m, c)
    ensures forall k :: 0 <= k < |m.files| ==> Unpacks(zip, m.files[k], c)
  {
  }

  lemma {:induction false} SplitAppend(a: string, rest: string)
    ensures Text.Split(a + ['/'] + rest, '/') == Text.Split(a, '/') + Text.Split(rest, '/')
    decreases |a|
  {
    var i := Text.IndexOf(a, '/');
    Text.SplitWhole(a, '/');
    hide Text.Split, Text.IndexOf;
    if i == |a| {
      Text.SplitFirst(a, '/', rest);
    } else {
      var first, tail := a[..i], a[i + 1..];
      SplitAppend(tail, rest);
      assert a == first + ['/'] + tail;
      Text.SplitFirst(first, '/', tail);
      assert a + ['/'] + rest == first + ['/'] + (tail + ['/'] + rest);
      Text.SplitFirst(first, '/', tail + ['/'] + rest);
    }
  }

  lemma {:induction false} JoinAppend(a: Path, b: Path)
    requires a != [] && b != []
    ensures Text.Join(a + b, '/') == Text.Join(a, '/') + ['/'] + Text.Join(b, '/')
  {
    assert (a + b)[1..] == a[1..] + b;
    if |a| == 1 {
      assert a + b == a + b[..] && (a + b)[1..] == b;
    } else {
      JoinAppend(a[1..], b);
    }
  }

  /** One path runs into another exactly when it is that name or names a directory of it. */
  lemma AboveIsADirectory(a: string, b: string)
    ensures Above(Text.Split(a, '/'), Text.Split(b, '/')) <==> a == b || a + "/" <= b
  {
    var p, q := Text.Split(a, '/'), Text.Split(b, '/');
    Text.JoinOfSplit(a, '/');
    Text.JoinOfSplit(b, '/');
    hide Text.Split, Text.Join;
    if Above(p, q) && |p| < |q| {
      assert q == p + q[|p|..];
      JoinAppend(p, q[|p|..]);
    }
    if Above(p, q) && |p| == |q| {
      assert q[..|p|] == q;
    }
    if a + "/" <= b {
      assert b == a + ['/'] + b[|a| + 1..];
      SplitAppend(a, b[|a| + 1..]);
    }
    assert q[..|q|] == q;
  }

  /** No name is the directory of another. */
  ghost predicate NoneNested(sources: seq<Source>) {
    forall i, j :: 0 <= i < |sources| && 0 <= j < |sources| ==> !(sources[i].name + "/" <= sources[j].name)
  }

  lemma ApartExactlyWhenNoneNested(m: Manifest, sources: seq<Source>, c: Codec)
    requires Readable(sources) && forall i, j :: 0 <= i < j < |sources| ==> sources[i].name != sources[j].name
    requires |m.files| == |sources| && forall k :: 0 <= k < |sources| ==> m.files[k] == FileOf(sources[k], c)
    ensures Apart(m.files) <==> NoneNested(sources)
  {
    hide Above;
    forall i, j | 0 <= i < |sources| && 0 <= j < |sources|
      ensures Above(PathOf(m.files[i]), PathOf(m.files[j])) <==>
                sources[i].name == sources[j].name || sources[i].name + "/" <= sources[j].name
    {
      AboveIsADirectory(sources[i].name, sources[j].name);
    }
    hide PathOf;
    if !NoneNested(sources) {
      var i, j :| 0 <= i < |sources| && 0 <= j < |sources| && sources[i].name + "/" <= sources[j].name;
      assert i != j;
      assert Above(PathOf(m.files[i]), PathOf(m.files[j]));
    }
  }

  lemma UnpackedIsTheSources(zip: seq<Entry>, m: Manifest, head: Head, sources: seq<Source>, c: Codec)
    requires Bundleable(sources, c) && IsBundleOf(zip, m, head, sources, c)
    ensures Unpacked(zip, m.files) == Restored(sources)
  {
  }

  /** Each source's own bytes, at its own path. */
  function Restored(sources: seq<Source>): (done: seq<Placed>)
    requires Readable(sources)
    ensures |done| == |sources|
  {
    seq(|sources|, i requires 0 <= i < |sources| => Placed(Text.Split(sources[i].name, '/'), sources[i].content.value))
  }

  /** A vault bundled, checked and unpacked into an empty directory: on a sound disk this restores exactly the
      source bytes, each at its path and nothing else, exactly when Write and Verify accept the sources and
      no name is a directory of another. */
  method BundleAndRestore(head: Head, sources: seq<Source>, taken: nat -> bool, faulty: bool, c: Codec)
    returns (ok: bool, disk: Disk)
    requires c.decode(c.encode(ManifestOf(head, sources, c))) == Some(ManifestOf(head, sources, c))
    ensures disk.faulty == faulty
    ensures ok ==> Bundleable(sources, c) && Readable(sources) && IsTree(disk.nodes, Restored(sources))
    ensures ok ==> Acceptable(ManifestOf(head, sources, c), sources, c)
    ensures !faulty && (forall k: nat :: k <= |sources| + 1 ==> taken(k)) ==>
              (ok <==> Bundleable(sources, c) && Readable(sources) && NoneNested(sources)
                       && Acceptable(ManifestOf(head, sources, c), sources, c))
  {
    hide Bundleable, Readable, Acceptable, IsTree, Agrees, Apart, NoneNested;
    disk := new Disk(faulty);
    var written, zip := Write(head, sources, c, taken);
    if written.None? {
      return false, disk;
    }
    var m := written.value;
    WrittenManifest(zip, m, head, sources, c);
    VerifyAcceptsWhatWasWrittenExactlyWhen(zip, m, head, sources, c);
    var verified := Verify(zip, c);
    if verified.None? {
      return false, disk;
    }
    VerifiedFilesUnpack(zip, m, c);
    UnpackedIsTheSources(zip, m, head, sources, c);
    ok := Extract(zip, verified.value, disk, c);
  }

  /** The manifest Write makes. */
  function ManifestOf(head: Head, sources: seq<Source>, c: Codec): Manifest {
    Manifest(FORMAT, head, seq(|sources|, i requires 0 <= i < |sources| =>
      if sources[i].content.Some? then FileOf(sources[i], c) else File("", 0, "")))
  }

  lemma WrittenManifest(zip: seq<Entry>, m: Manifest, head: Head, sources: seq<Source>, c: Codec)
    requires Bundleable(sources, c) && IsBundleOf(zip, m, head, sources, c)
    ensures m == ManifestOf(head, sources, c) && Readable(sources)
    ensures Apart(m.files) <==> NoneNested(sources)
  {
    assert m.files == ManifestOf(head, sources, c).files;
    ApartExactlyWhenNoneNested(m, sources, c);
  }

  // ---- a file listed twice ----

  /** Verify does not ask that a file be listed once. Whatever the files hold and however they are hashed, a manifest
      that names the database twice agrees with its zip, if it decodes to itself within the bound and the names fold
      apart; and it cannot be unpacked. */
  lemma AFileListedTwiceIsVerifiedAndCannotBeUnpacked(head: Head, db: Bytes, config: Bytes, c: Codec)
    requires c.upper('.') == '.' && forall x :: 'a' <= x <= 'z' ==> 'A' <= c.upper(x) <= 'Z'
    requires NoTwo(c.fold("nooma.db"), c.fold("nooma.yml"), c.fold(MANIFEST_NAME))
    requires var m := TwiceListed(head, db, config, c);
             c.decode(c.encode(m)) == Some(m) && |c.encode(m)| <= MAX_MANIFEST_BYTES
    ensures var m := TwiceListed(head, db, config, c);
            && Agrees(ZipOf(m, db, config, c), m, c)
            && !Apart(m.files) && !Distinct(Paths(m.files))
  {
    hide Agrees, Safe;
    PlainName("nooma.db", "db", c.upper);
    PlainName("nooma.yml", "yml", c.upper);
    TwiceListedAgrees(head, db, config, c);
    TwiceListedCollides(TwiceListed(head, db, config, c).files);
  }

  predicate NoTwo(a: string, b: string, c: string) {
    a != b && b != c && a != c
  }

  function TwiceListed(head: Head, db: Bytes, config: Bytes, c: Codec): Manifest {
    var f := File("nooma.db", |db|, c.hash(db));
    Manifest(FORMAT, head, [f, File("nooma.yml", |config|, c.hash(config)), f])
  }

  function ZipOf(m: Manifest, db: Bytes, config: Bytes, c: Codec): seq<Entry> {
    [Entry("nooma.db", true, |db|, Some(db)), Entry("nooma.yml", true, |config|, Some(config)),
     Entry(MANIFEST_NAME, true, |c.encode(m)|, Some(c.encode(m)))]
  }

  lemma TwiceListedCollides(files: seq<File>)
    requires |files| == 3 && files[0] == files[2]
    ensures !Apart(files) && !Distinct(Paths(files))
  {
    hide PathOf;
    var paths, f := Paths(files), files[0];
    assert paths[0] == paths[2];
    assert PathOf(f)[..|PathOf(f)|] == PathOf(f);
    assert Above(PathOf(files[0]), PathOf(files[2]));
  }

  lemma TwiceListedAgrees(head: Head, db: Bytes, config: Bytes, c: Codec)
    requires Safe("nooma.db", c.upper) && Safe("nooma.yml", c.upper)
    requires NoTwo(c.fold("nooma.db"), c.fold("nooma.yml"), c.fold(MANIFEST_NAME))
    requires var m := TwiceListed(head, db, config, c);
             c.decode(c.encode(m)) == Some(m) && |c.encode(m)| <= MAX_MANIFEST_BYTES
    ensures var m := TwiceListed(head, db, config, c); Agrees(ZipOf(m, db, config, c), m, c)
  {
    hide Safe;
    var m := TwiceListed(head, db, config, c);
    var zip := ZipOf(m, db, config, c);
    assert zip[0].name == "nooma.db" && Matches(zip[0], m.files[0], c);
    assert zip[1].name == "nooma.yml" && Matches(zip[1], m.files[1], c);
    assert zip[2].name == MANIFEST_NAME && ManifestIn(zip[2], c) == Some(m);
    var paths := Paths(m.files);
    assert paths[0] == "nooma.db" && paths[1] == "nooma.yml";
  }

  lemma PlainName(name: string, extension: string, upper: char -> char)
    requires extension in {"db", "yml"} && name == "nooma" + ['.'] + extension
    requires upper('.') == '.' && forall x :: 'a' <= x <= 'z' ==> 'A' <= upper(x) <= 'Z'
    ensures Safe(name, upper)
  {
    Lowercase(name, extension);
    Text.SplitWhole(name, '/');
    NotADevice(name, extension, upper);
    hide Text.Split, IsDevice;
    assert forall x :: x in RESERVED_CHARS ==> !('a' <= x <= 'z' || x == '.');
    assert !WindowsReserved(name, upper);
  }

  lemma Lowercase(name: string, extension: string)
    requires extension in {"db", "yml"} && name == "nooma" + ['.'] + extension
    ensures forall x :: x in name ==> 'a' <= x <= 'z' || x == '.'
    ensures 'a' <= name[|name| - 1] <= 'z' && |name| > 2
  {
  }

  lemma NotADevice(name: string, extension: string, upper: char -> char)
    requires extension in {"db", "yml"} && name == "nooma" + ['.'] + extension
    requires upper('.') == '.' && forall x :: 'a' <= x <= 'z' ==> 'A' <= upper(x) <= 'Z'
    ensures !IsDevice(name, upper)
  {
    var all := Upper(name, upper);
    var stem := all[..5];
    assert all == stem + ['.'] + all[6..];
    assert forall k :: 0 <= k < 5 ==> stem[k] == upper(name[k]) && 'a' <= name[k] <= 'z';
    assert '.' !in stem;
    Text.IndexOfAfter(stem, '.', all[6..]);
    assert TrimSpaces(stem) == stem;
    hide Text.IndexOf;
  }
}
