/** Discovery of installed model packages.

    Directory listings come in whatever order the file system gives them, and the catalog must not
    depend on it: it is sorted, the first root that offers a name wins it, and within a folder the
    first weights by name are taken. */
module ModelScan {
  import opened Text
  import opened Sorting

  /** A directory entry of a package folder. `vocabulary`: the weights carry a tokenizer. */
  datatype File = File(name: Name, isFile: bool, size: nat, vocabulary: bool)

  /** A directory entry of a root; `files` is `None` when it cannot be listed. */
  datatype Folder = Folder(name: Name, isDir: bool, files: Option<seq<File>>)

  datatype Root = Root(path: Name, folders: Option<seq<Folder>>)

  datatype Package = Package(
    name: Name, root: Name, dir: Name, gguf: Name, ggufBytes: nat, tokenizer: bool, ggufTokenizer: bool) {
    predicate IsComplete() {
      tokenizer || ggufTokenizer
    }
  }

  function FileName(f: File): Name { f.name }

  function FolderName(f: Folder): Name { f.name }

  function PackageName(p: Package): Name { p.name }

  // ------------------------------------------------------------------- one package

  const TOKENIZER_JSON: Name := [116, 111, 107, 101, 110, 105, 122, 101, 114, 46, 106, 115, 111, 110]

  function LowerByte(b: nat): nat {
    if 65 <= b <= 90 then b + 32 else b
  }

  /** The extension is `gguf` in any case; a bare `.gguf` has no extension. */
  predicate IsGguf(name: Name) {
    && |name| >= 6 && name[|name| - 5] == 46
    && LowerByte(name[|name| - 4]) == 103 && LowerByte(name[|name| - 3]) == 103
    && LowerByte(name[|name| - 2]) == 117 && LowerByte(name[|name| - 1]) == 102
  }

  predicate IsWeights(f: File) {
    f.isFile && IsGguf(f.name)
  }

  function Weights(files: seq<File>): (ggufs: seq<File>)
    ensures forall i :: 0 <= i < |ggufs| ==> IsWeights(ggufs[i])
  {
    if files == [] then []
    else (if IsWeights(files[0]) then [files[0]] else []) + Weights(files[1..])
  }

  predicate HasTokenizer(files: seq<File>) {
    exists i :: 0 <= i < |files| && files[i].isFile && files[i].name == TOKENIZER_JSON
  }

  /** `None` without weights; otherwise the first `.gguf` by name. */
  function PackageFrom(root: Name, f: Folder, lossy: Name -> Name): Option<Package> {
    match f.files
    case None => None
    case Some(files) =>
      var ggufs := Sort(Weights(files), FileName);
      if ggufs == [] then None
      else
        var tokenizer := HasTokenizer(files);
        Some(Package(lossy(f.name), root, f.name, ggufs[0].name, ggufs[0].size, tokenizer,
                     !tokenizer && ggufs[0].vocabulary))
  }

  // ---------------------------------------------------------------------- the scan

  function Folders(entries: seq<Folder>): (dirs: seq<Folder>)
  {
    if entries == [] then []
    else (if entries[0].isDir then [entries[0]] else []) + Folders(entries[1..])
  }

  function OffersOf(root: Name, dirs: seq<Folder>, lossy: Name -> Name): seq<Package> {
    if dirs == [] then []
    else
      var package := PackageFrom(root, dirs[0], lossy);
      (if package.Some? then [package.value] else []) + OffersOf(root, dirs[1..], lossy)
  }

  /** The packages one root offers, by folder name. */
  function Offers(root: Root, lossy: Name -> Name): seq<Package> {
    match root.folders
    case None => []
    case Some(entries) => OffersOf(root.path, Sort(Folders(entries), FolderName), lossy)
  }

  predicate Named(packages: seq<Package>, name: Name) {
    exists i :: 0 <= i < |packages| && packages[i].name == name
  }

  /** The first of each name is kept. */
  function Keep(kept: seq<Package>, offers: seq<Package>): seq<Package>
    decreases offers
  {
    if offers == [] then kept
    else Keep(if Named(kept, offers[0].name) then kept else kept + [offers[0]], offers[1..])
  }

  function KeepRoots(kept: seq<Package>, roots: seq<Root>, lossy: Name -> Name): seq<Package>
    decreases roots
  {
    if roots == [] then kept else KeepRoots(Keep(kept, Offers(roots[0], lossy)), roots[1..], lossy)
  }

  function Catalog(roots: seq<Root>, lossy: Name -> Name): seq<Package> {
    Sort(KeepRoots([], roots, lossy), PackageName)
  }

  method Scan(roots: seq<Root>, lossy: Name -> Name) returns (packages: seq<Package>)
    ensures packages == Catalog(roots, lossy)
  {
    packages := [];
    for i := 0 to |roots|
      invariant KeepRoots(packages, roots[i..], lossy) == KeepRoots([], roots, lossy)
    {
      assert roots[i..][1..] == roots[i + 1..];
      match roots[i].folders {
        case None =>
          continue;
        case Some(entries) =>
          packages := AddFolders(packages, roots[i].path, Sort(Folders(entries), FolderName), lossy);
      }
    }
    packages := Sort(packages, PackageName);
  }

  method AddFolders(before: seq<Package>, root: Name, candidates: seq<Folder>, lossy: Name -> Name)
      returns (packages: seq<Package>)
    ensures packages == Keep(before, OffersOf(root, candidates, lossy))
  {
    packages := before;
    for j := 0 to |candidates|
      invariant Keep(packages, OffersOf(root, candidates[j..], lossy))
             == Keep(before, OffersOf(root, candidates, lossy))
    {
      ghost var rest := OffersOf(root, candidates[j + 1..], lossy);
      assert candidates[j..][1..] == candidates[j + 1..];
      var package := PackageFrom(root, candidates[j], lossy);
      if package.None? {
        assert [] + rest == rest;
        continue;
      }
      assert ([package.value] + rest)[1..] == rest;
      if Named(packages, package.value.name) {
        continue;
      }
      packages := packages + [package.value];
    }
  }

  // ---------------------------------------------------------------- names and winners

  predicate DistinctNames(packages: seq<Package>) {
    DistinctKeys(packages, PackageName)
  }

  lemma {:induction false} KeepIsDistinct(kept: seq<Package>, offers: seq<Package>)
    requires DistinctNames(kept)
    ensures DistinctNames(Keep(kept, offers))
    decreases offers
  {
    if offers != [] {
      KeepIsDistinct(if Named(kept, offers[0].name) then kept else kept + [offers[0]], offers[1..]);
    }
  }

  lemma {:induction false} RootsAreDistinct(kept: seq<Package>, roots: seq<Root>, lossy: Name -> Name)
    requires DistinctNames(kept)
    ensures DistinctNames(KeepRoots(kept, roots, lossy))
    decreases roots
  {
    if roots != [] {
      KeepIsDistinct(kept, Offers(roots[0], lossy));
      RootsAreDistinct(Keep(kept, Offers(roots[0], lossy)), roots[1..], lossy);
    }
  }

  /** The catalog's names are strictly increasing. */
  lemma NamesIncrease(roots: seq<Root>, lossy: Name -> Name, i: nat, j: nat)
    requires i < j < |Catalog(roots, lossy)|
    ensures AtMost(Catalog(roots, lossy)[i].name, Catalog(roots, lossy)[j].name)
    ensures Catalog(roots, lossy)[i].name != Catalog(roots, lossy)[j].name
  {
    var kept := KeepRoots([], roots, lossy);
    RootsAreDistinct([], roots, lossy);
    SortKeeps(kept, PackageName);
    DistinctInAnyOrder(kept, Sort(kept, PackageName), PackageName);
    assert PackageName(Catalog(roots, lossy)[i]) != PackageName(Catalog(roots, lossy)[j]);
  }

  /** `p` is the first of its name among `offers`. */
  predicate FirstOfItsName(offers: seq<Package>, p: Package) {
    exists k :: 0 <= k < |offers| && offers[k] == p && !Named(offers[..k], p.name)
  }

  lemma NamedConcat(a: seq<Package>, b: seq<Package>, name: Name)
    ensures Named(a + b, name) <==> Named(a, name) || Named(b, name)
  {
    if Named(a, name) {
      var i :| 0 <= i < |a| && a[i].name == name;
      assert (a + b)[i].name == name;
    }
    if Named(b, name) {
      var i :| 0 <= i < |b| && b[i].name == name;
      assert (a + b)[|a| + i].name == name;
    }
  }

  /** What `Keep` keeps: what it had, and the first of each name it had not. */
  lemma {:induction false} KeepsFirsts(kept: seq<Package>, offers: seq<Package>, p: Package)
    ensures p in Keep(kept, offers) <==> p in kept || (!Named(kept, p.name) && FirstOfItsName(offers, p))
    ensures Named(Keep(kept, offers), p.name) <==> Named(kept, p.name) || Named(offers, p.name)
    decreases offers
  {
    if offers != [] {
      var o, rest := offers[0], offers[1..];
      var now := if Named(kept, o.name) then kept else kept + [o];
      KeepsFirsts(now, rest, p);
      NamedConcat(kept, [o], p.name);
      NamedConcat([o], rest, p.name);
      assert offers == [o] + rest;
      assert Named([o], p.name) <==> o.name == p.name by {
        assert [o][0] == o;
      }
      FirstAmong(o, rest, p);
    }
  }

  lemma FirstAmong(o: Package, rest: seq<Package>, p: Package)
    ensures FirstOfItsName([o] + rest, p) <==> o == p || (o.name != p.name && FirstOfItsName(rest, p))
  {
    var offers := [o] + rest;
    if o == p {
      assert offers[0] == p && !Named(offers[..0], p.name);
    }
    if o.name != p.name && FirstOfItsName(rest, p) {
      var k :| 0 <= k < |rest| && rest[k] == p && !Named(rest[..k], p.name);
      assert offers[..k + 1] == [o] + rest[..k];
      NamedConcat([o], rest[..k], p.name);
      assert offers[k + 1] == p;
    }
    if FirstOfItsName(offers, p) && o != p {
      var k :| 0 <= k < |offers| && offers[k] == p && !Named(offers[..k], p.name);
      assert offers[..k] == [o] + rest[..k - 1];
      NamedConcat([o], rest[..k - 1], p.name);
      assert offers[..k][0] == o;
      assert rest[k - 1] == p;
    }
  }

  /** Root `i` is the first that offers anything named like `p`, and `p` is its first. */
  predicate WinsAt(roots: seq<Root>, lossy: Name -> Name, p: Package, i: nat)
    requires i < |roots|
  {
    && FirstOfItsName(Offers(roots[i], lossy), p)
    && forall j :: 0 <= j < i ==> !Named(Offers(roots[j], lossy), p.name)
  }

  predicate Wins(roots: seq<Root>, lossy: Name -> Name, p: Package) {
    exists i :: 0 <= i < |roots| && WinsAt(roots, lossy, p, i)
  }

  lemma {:induction false} RootsKeepWinners(kept: seq<Package>, roots: seq<Root>, lossy: Name -> Name, p: Package)
    ensures p in KeepRoots(kept, roots, lossy) <==> p in kept || (!Named(kept, p.name) && Wins(roots, lossy, p))
    decreases roots
  {
    if roots != [] {
      var offers, rest := Offers(roots[0], lossy), roots[1..];
      KeepsFirsts(kept, offers, p);
      RootsKeepWinners(Keep(kept, offers), rest, lossy, p);
      WinsFurtherOn(roots, lossy, p);
    }
  }

  lemma WinsFurtherOn(roots: seq<Root>, lossy: Name -> Name, p: Package)
    requires roots != []
    ensures Wins(roots, lossy, p)
       <==> FirstOfItsName(Offers(roots[0], lossy), p)
            || (!Named(Offers(roots[0], lossy), p.name) && Wins(roots[1..], lossy, p))
  {
    var rest := roots[1..];
    if FirstOfItsName(Offers(roots[0], lossy), p) {
      assert WinsAt(roots, lossy, p, 0);
    }
    if !Named(Offers(roots[0], lossy), p.name) && Wins(rest, lossy, p) {
      var i :| 0 <= i < |rest| && WinsAt(rest, lossy, p, i);
      assert forall j :: 0 < j < i + 1 ==> roots[j] == rest[j - 1];
      assert WinsAt(roots, lossy, p, i + 1);
    }
    if Wins(roots, lossy, p) {
      var i :| 0 <= i < |roots| && WinsAt(roots, lossy, p, i);
      if i > 0 {
        assert forall j :: 0 <= j < i - 1 ==> rest[j] == roots[j + 1];
        assert WinsAt(rest, lossy, p, i - 1);
      }
    }
  }

  /** The catalog holds exactly the winners: for each name, the first package by folder name in
      the earliest root that offers the name. */
  lemma CatalogHoldsWinners(roots: seq<Root>, lossy: Name -> Name, p: Package)
    ensures p in Catalog(roots, lossy) <==> Wins(roots, lossy, p)
  {
    SortKeeps(KeepRoots([], roots, lossy), PackageName);
    RootsKeepWinners([], roots, lossy, p);
  }

  /** Within a folder the weights are the first `.gguf` by name. */
  lemma WeightsAreFirstByName(root: Name, f: Folder, lossy: Name -> Name, g: File)
    requires PackageFrom(root, f, lossy).Some?
    requires g in f.files.value && IsWeights(g)
    ensures AtMost(PackageFrom(root, f, lossy).value.gguf, g.name)
    ensures exists h :: h in f.files.value && IsWeights(h) && h.name == PackageFrom(root, f, lossy).value.gguf
  {
    var ggufs := Sort(Weights(f.files.value), FileName);
    SortKeeps(Weights(f.files.value), FileName);
    WeightsHold(f.files.value, g);
    WeightsHold(f.files.value, ggufs[0]);
    assert ggufs[0] in f.files.value;
    var k :| 0 <= k < |ggufs| && ggufs[k] == g;
    if k == 0 {
      AtMostIsTotal(g.name, g.name);
    } else {
      assert AtMost(FileName(ggufs[0]), FileName(ggufs[k]));
    }
  }

  lemma {:induction false} WeightsHold(files: seq<File>, g: File)
    ensures g in Weights(files) <==> g in files && IsWeights(g)
  {
    if files != [] {
      WeightsHold(files[1..], g);
      assert files == [files[0]] + files[1..];
    }
  }

  // --------------------------------------------------------------- order is forgotten

  /** A folder with its files listed by name. */
  function Canon(f: Folder): Folder {
    if f.files.Some? then f.(files := Some(Sort(f.files.value, FileName))) else f
  }

  function CanonAll(fs: seq<Folder>): (cs: seq<Folder>)
    ensures |cs| == |fs| && forall i :: 0 <= i < |fs| ==> cs[i] == Canon(fs[i])
  {
    seq(|fs|, i requires 0 <= i < |fs| => Canon(fs[i]))
  }

  /** What a file system guarantees: no two entries of a directory share a name. */
  predicate ProperFolder(f: Folder) {
    f.files.Some? ==> DistinctKeys(f.files.value, FileName)
  }

  predicate ProperRoot(r: Root) {
    r.folders.Some? ==>
      DistinctKeys(r.folders.value, FolderName)
      && forall i :: 0 <= i < |r.folders.value| ==> ProperFolder(r.folders.value[i])
  }

  /** The same folders with the same files, each listing in any order. */
  predicate SameRoot(r: Root, s: Root) {
    && r.path == s.path
    && (r.folders.Some? <==> s.folders.Some?)
    && (r.folders.Some? ==> multiset(CanonAll(r.folders.value)) == multiset(CanonAll(s.folders.value)))
  }

  lemma {:induction false} WeightsForgetOrder(a: seq<File>, x: File)
    ensures multiset(Weights(a))[x] == if IsWeights(x) then multiset(a)[x] else 0
  {
    if a != [] {
      WeightsForgetOrder(a[1..], x);
      assert a == [a[0]] + a[1..];
    }
  }

  lemma {:induction false} WeightsStayDistinct(a: seq<File>)
    requires DistinctKeys(a, FileName)
    ensures DistinctKeys(Weights(a), FileName)
  {
    if a != [] {
      assert a == [a[0]] + a[1..];
      assert forall i :: 0 <= i < |a[1..]| ==> a[1..][i] == a[i + 1];
      WeightsStayDistinct(a[1..]);
      forall j | 0 <= j < |Weights(a[1..])|
        ensures FileName(Weights(a[1..])[j]) != FileName(a[0])
      {
        WeightsHold(a[1..], Weights(a[1..])[j]);
      }
    }
  }

  lemma SortedFilesGiveTheSame(root: Name, f: Folder, lossy: Name -> Name)
    requires ProperFolder(f)
    ensures PackageFrom(root, Canon(f), lossy) == PackageFrom(root, f, lossy)
  {
    if f.files.Some? {
      var files, listed := f.files.value, Sort(f.files.value, FileName);
      SortKeeps(files, FileName);
      WeightsSortAlike(files, listed);
      TokenizerForgetsOrder(files, listed);
    }
  }

  lemma WeightsSortAlike(files: seq<File>, listed: seq<File>)
    requires multiset(files) == multiset(listed) && DistinctKeys(files, FileName)
    ensures Sort(Weights(files), FileName) == Sort(Weights(listed), FileName)
  {
    forall x
      ensures multiset(Weights(files))[x] == multiset(Weights(listed))[x]
    {
      WeightsForgetOrder(files, x);
      WeightsForgetOrder(listed, x);
    }
    WeightsStayDistinct(files);
    SortForgetsOrder(Weights(files), Weights(listed), FileName);
  }

  lemma TokenizerForgetsOrder(a: seq<File>, b: seq<File>)
    requires multiset(a) == multiset(b)
    ensures HasTokenizer(a) == HasTokenizer(b)
  {
    if HasTokenizer(a) {
      TokenizerMoves(a, b);
    }
    if HasTokenizer(b) {
      TokenizerMoves(b, a);
    }
  }

  lemma TokenizerMoves(a: seq<File>, b: seq<File>)
    requires multiset(a) == multiset(b) && HasTokenizer(a)
    ensures HasTokenizer(b)
  {
    var i :| 0 <= i < |a| && a[i].isFile && a[i].name == TOKENIZER_JSON;
    assert a[i] in multiset(b);
    var j := IndexOf(b, a[i]);
    assert b[j].isFile && b[j].name == TOKENIZER_JSON;
  }

  lemma {:induction false} CanonFolders(fs: seq<Folder>)
    ensures Folders(CanonAll(fs)) == CanonAll(Folders(fs))
  {
    if fs != [] {
      CanonFolders(fs[1..]);
      assert CanonAll(fs)[1..] == CanonAll(fs[1..]);
      var head := if fs[0].isDir then [fs[0]] else [];
      assert CanonAll(head + Folders(fs[1..])) == CanonAll(head) + CanonAll(Folders(fs[1..]));
    }
  }

  lemma {:induction false} CanonInsert(x: Folder, fs: seq<Folder>)
    ensures Insert(Canon(x), CanonAll(fs), FolderName) == CanonAll(Insert(x, fs, FolderName))
  {
    if fs != [] && !AtMost(FolderName(x), FolderName(fs[0])) {
      CanonInsert(x, fs[1..]);
      assert CanonAll(fs)[1..] == CanonAll(fs[1..]);
      CanonFirst(fs[0], Insert(x, fs[1..], FolderName));
    } else {
      CanonFirst(x, fs);
    }
  }

  lemma CanonFirst(x: Folder, fs: seq<Folder>)
    ensures CanonAll([x] + fs) == [Canon(x)] + CanonAll(fs)
  {}

  lemma {:induction false} CanonSort(fs: seq<Folder>)
    ensures Sort(CanonAll(fs), FolderName) == CanonAll(Sort(fs, FolderName))
  {
    if fs != [] {
      CanonSort(fs[1..]);
      assert CanonAll(fs)[1..] == CanonAll(fs[1..]);
      CanonInsert(fs[0], Sort(fs[1..], FolderName));
    }
  }

  lemma {:induction false} CanonOffers(root: Name, dirs: seq<Folder>, lossy: Name -> Name)
    requires forall i :: 0 <= i < |dirs| ==> ProperFolder(dirs[i])
    ensures OffersOf(root, CanonAll(dirs), lossy) == OffersOf(root, dirs, lossy)
  {
    if dirs != [] {
      SortedFilesGiveTheSame(root, dirs[0], lossy);
      assert CanonAll(dirs)[1..] == CanonAll(dirs[1..]);
      CanonOffers(root, dirs[1..], lossy);
    }
  }

  lemma {:induction false} FoldersHold(entries: seq<Folder>, f: Folder)
    ensures f in Folders(entries) <==> f in entries && f.isDir
  {
    if entries != [] {
      FoldersHold(entries[1..], f);
      assert entries == [entries[0]] + entries[1..];
    }
  }

  lemma {:induction false} FoldersForgetOrder(a: seq<Folder>, x: Folder)
    ensures multiset(Folders(a))[x] == if x.isDir then multiset(a)[x] else 0
  {
    if a != [] {
      FoldersForgetOrder(a[1..], x);
      assert a == [a[0]] + a[1..];
    }
  }

  lemma {:induction false} FoldersStayDistinct(a: seq<Folder>)
    requires DistinctKeys(a, FolderName)
    ensures DistinctKeys(Folders(a), FolderName)
  {
    if a != [] {
      assert a == [a[0]] + a[1..];
      assert forall i :: 0 <= i < |a[1..]| ==> a[1..][i] == a[i + 1];
      FoldersStayDistinct(a[1..]);
      forall j | 0 <= j < |Folders(a[1..])|
        ensures FolderName(Folders(a[1..])[j]) != FolderName(a[0])
      {
        FoldersHold(a[1..], Folders(a[1..])[j]);
      }
    }
  }

  lemma SortedFoldersAreProper(r: Root, dirs: seq<Folder>)
    requires ProperRoot(r) && r.folders.Some? && dirs == Folders(r.folders.value)
    ensures forall i :: 0 <= i < |Sort(dirs, FolderName)| ==> ProperFolder(Sort(dirs, FolderName)[i])
  {
    SortKeeps(dirs, FolderName);
    forall f | f in Sort(dirs, FolderName)
      ensures ProperFolder(f)
    {
      assert f in dirs;
      FoldersHold(r.folders.value, f);
    }
  }

  /** A root's offers, from its canonical listing. */
  lemma OffersAreCanonical(r: Root, lossy: Name -> Name)
    requires ProperRoot(r) && r.folders.Some?
    ensures Offers(r, lossy) == OffersOf(r.path, Sort(Folders(CanonAll(r.folders.value)), FolderName), lossy)
  {
    var dirs := Folders(r.folders.value);
    CanonFolders(r.folders.value);
    CanonSort(dirs);
    SortedFoldersAreProper(r, dirs);
    CanonOffers(r.path, Sort(dirs, FolderName), lossy);
  }

  lemma OffersForgetOrder(r: Root, s: Root, lossy: Name -> Name)
    requires ProperRoot(r) && ProperRoot(s) && SameRoot(r, s)
    ensures Offers(r, lossy) == Offers(s, lossy)
  {
    if r.folders.Some? {
      OffersAreCanonical(r, lossy);
      OffersAreCanonical(s, lossy);
      var a, b := CanonAll(r.folders.value), CanonAll(s.folders.value);
      forall x
        ensures multiset(Folders(a))[x] == multiset(Folders(b))[x]
      {
        FoldersForgetOrder(a, x);
        FoldersForgetOrder(b, x);
      }
      assert DistinctKeys(a, FolderName);
      FoldersStayDistinct(a);
      SortForgetsOrder(Folders(a), Folders(b), FolderName);
    }
  }

  /** The catalog does not depend on the order in which any directory is listed. */
  lemma ScanIsDeterministic(roots: seq<Root>, others: seq<Root>, lossy: Name -> Name)
    requires |roots| == |others|
    requires forall i :: 0 <= i < |roots| ==>
      ProperRoot(roots[i]) && ProperRoot(others[i]) && SameRoot(roots[i], others[i])
    ensures Catalog(roots, lossy) == Catalog(others, lossy)
  {
    RootsForgetOrder([], roots, others, lossy);
  }

  lemma {:induction false} RootsForgetOrder(
      kept: seq<Package>, roots: seq<Root>, others: seq<Root>, lossy: Name -> Name)
    requires |roots| == |others|
    requires forall i :: 0 <= i < |roots| ==>
      ProperRoot(roots[i]) && ProperRoot(others[i]) && SameRoot(roots[i], others[i])
    ensures KeepRoots(kept, roots, lossy) == KeepRoots(kept, others, lossy)
    decreases roots
  {
    if roots != [] {
      OffersForgetOrder(roots[0], others[0], lossy);
      RootsForgetOrder(Keep(kept, Offers(roots[0], lossy)), roots[1..], others[1..], lossy);
    }
  }

  // ------------------------------------------------------------------------- lookup

  /** `to_pair`: the weights of the package so named, unless it has no tokenizer at all. */
  function ToPair(packages: seq<Package>, name: Name): Option<Package> {
    if packages == [] then None
    else if packages[0].name == name then if packages[0].IsComplete() then Some(packages[0]) else None
    else ToPair(packages[1..], name)
  }

  /** `packages[k]` is the first so named. */
  predicate FirstNamed(packages: seq<Package>, name: Name, k: nat) {
    k < |packages| && packages[k].name == name && forall j :: 0 <= j < k ==> packages[j].name != name
  }

  /** In any list a lookup comes to the first package so named, and to nothing if that one is
      incomplete, whatever later ones of the name are. */
  lemma {:induction false} FindsTheFirstNamed(packages: seq<Package>, name: Name, k: nat)
    ensures FirstNamed(packages, name, k) ==>
              ToPair(packages, name) == if packages[k].IsComplete() then Some(packages[k]) else None
    ensures (forall j :: 0 <= j < |packages| ==> packages[j].name != name) ==> ToPair(packages, name).None?
  {
    if packages != [] {
      assert forall j :: 0 <= j < |packages[1..]| ==> packages[1..][j] == packages[j + 1];
      if packages[0].name != name {
        if k > 0 {
          FindsTheFirstNamed(packages[1..], name, k - 1);
        } else {
          FindsTheFirstNamed(packages[1..], name, 0);
        }
      }
    }
  }

  lemma {:induction false} FindsTheNamed(packages: seq<Package>, name: Name)
    requires DistinctNames(packages)
    ensures ToPair(packages, name).Some? <==> exists p :: p in packages && p.name == name && p.IsComplete()
    ensures ToPair(packages, name).Some? ==>
              var p := ToPair(packages, name).value; p in packages && p.name == name && p.IsComplete()
  {
    if packages != [] {
      var rest := packages[1..];
      assert packages == [packages[0]] + rest;
      assert forall i :: 0 <= i < |rest| ==> rest[i] == packages[i + 1];
      FindsTheNamed(rest, name);
      if packages[0].name == name {
        forall p | p in rest
          ensures p.name != name
        {
          var k :| 0 <= k < |rest| && rest[k] == p;
          assert PackageName(packages[0]) != PackageName(packages[k + 1]);
        }
      }
    }
  }

  /** A name resolves to its winner, if the winner is complete, and otherwise to nothing: a
      later root is never consulted in its place. */
  lemma NameResolvesToWinner(roots: seq<Root>, lossy: Name -> Name, name: Name)
    ensures var found := ToPair(Catalog(roots, lossy), name);
            && (found.Some? <==> exists p :: Wins(roots, lossy, p) && p.name == name && p.IsComplete())
            && (found.Some? ==> Wins(roots, lossy, found.value) && found.value.name == name && found.value.IsComplete())
  {
    var packages := Catalog(roots, lossy);
    RootsAreDistinct([], roots, lossy);
    SortKeeps(KeepRoots([], roots, lossy), PackageName);
    DistinctInAnyOrder(KeepRoots([], roots, lossy), packages, PackageName);
    FindsTheNamed(packages, name);
    forall p
      ensures p in packages <==> Wins(roots, lossy, p)
    {
      CatalogHoldsWinners(roots, lossy, p);
    }
  }
}
