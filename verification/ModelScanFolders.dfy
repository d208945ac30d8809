/** The catalog, told from folders and files. */
module ModelScanFolders {
  import opened Text
  import opened Sorting
  import opened ModelScan

  /** Bytewise order: one name begins the other, or the first byte that differs decides. */
  predicate DecidedAt(a: Name, b: Name, k: nat) {
    k < |a| && k < |b| && a[..k] == b[..k] && a[k] < b[k]
  }

  ghost predicate Below(a: Name, b: Name) {
    a <= b || exists k: nat :: DecidedAt(a, b, k)
  }

  lemma {:induction false} AtMostIff(a: Name, b: Name)
    ensures AtMost(a, b) <==> Below(a, b)
  {
    if a != [] && b != [] {
      AtMostIff(a[1..], b[1..]);
      if Below(a, b) {
        BelowInTail(a, b);
      }
      if AtMost(a, b) {
        BelowFromTail(a, b);
      }
    }
  }

  lemma BelowInTail(a: Name, b: Name)
    requires a != [] && b != [] && Below(a, b)
    ensures a[0] < b[0] || (a[0] == b[0] && Below(a[1..], b[1..]))
  {
    if a <= b {
      assert a[1..] <= b[1..];
    } else {
      var k: nat :| DecidedAt(a, b, k);
      if k > 0 {
        assert a[..k][0] == b[..k][0];
        assert a[1..][..k - 1] == a[..k][1..] && b[1..][..k - 1] == b[..k][1..];
        assert DecidedAt(a[1..], b[1..], k - 1);
      }
    }
  }

  lemma BelowFromTail(a: Name, b: Name)
    requires a != [] && b != [] && (a[0] < b[0] || (a[0] == b[0] && Below(a[1..], b[1..])))
    ensures Below(a, b)
  {
    if a[0] < b[0] {
      assert DecidedAt(a, b, 0);
    } else if a[1..] <= b[1..] {
      assert a == [a[0]] + a[1..] && b == [b[0]] + b[1..];
    } else {
      var k: nat :| DecidedAt(a[1..], b[1..], k);
      assert a[..k + 1] == [a[0]] + a[1..][..k] && b[..k + 1] == [b[0]] + b[1..][..k];
      assert DecidedAt(a, b, k + 1);
    }
  }

  // ------------------------------------------------------------------- one package

  /** `gguf` in any case. */
  predicate IsExtension(e: Name) {
    && |e| == 4 && (e[0] == 103 || e[0] == 71) && (e[1] == 103 || e[1] == 71)
    && (e[2] == 117 || e[2] == 85) && (e[3] == 102 || e[3] == 70)
  }

  /** A weights file is a stem, a full stop and the extension. */
  lemma GgufIff(name: Name)
    ensures IsGguf(name) <==> exists stem: Name, e: Name :: stem != [] && IsExtension(e) && name == stem + [46] + e
  {
    if IsGguf(name) {
      var n := |name| - 5;
      assert name == name[..n] + [46] + name[n + 1..];
      assert name[..n] != [] && IsExtension(name[n + 1..]);
    }
    if exists stem: Name, e: Name :: stem != [] && IsExtension(e) && name == stem + [46] + e {
      var stem: Name, e: Name :| stem != [] && IsExtension(e) && name == stem + [46] + e;
      assert name[|stem|] == 46 && name[|stem| + 1..] == e;
    }
  }

  predicate HasWeights(f: Folder) {
    f.files.Some? && exists k :: 0 <= k < |f.files.value| && IsWeights(f.files.value[k])
  }

  /** `h` is the first weights file of the folder by name. */
  predicate FirstWeights(f: Folder, h: File) {
    && f.files.Some? && h in f.files.value && IsWeights(h)
    && forall g :: g in f.files.value && IsWeights(g) ==> AtMost(h.name, g.name)
  }

  /** `p` describes folder `f` with weights `h`: the vocabulary in the weights counts only where
      there is no tokenizer file. */
  predicate Describes(p: Package, root: Name, f: Folder, lossy: Name -> Name, h: File)
    requires f.files.Some?
  {
    && p.name == lossy(f.name) && p.root == root && p.dir == f.name
    && p.gguf == h.name && p.ggufBytes == h.size
    && (p.tokenizer <==> exists g :: g in f.files.value && g.isFile && g.name == TOKENIZER_JSON)
    && (p.ggufTokenizer <==> !p.tokenizer && h.vocabulary)
  }

  /** A folder is a package if and only if it can be listed and holds weights; which package,
      its files say. */
  lemma PackageIff(root: Name, f: Folder, lossy: Name -> Name)
    ensures PackageFrom(root, f, lossy).Some? <==> HasWeights(f)
    ensures HasWeights(f) ==>
              exists h :: FirstWeights(f, h) && Describes(PackageFrom(root, f, lossy).value, root, f, lossy, h)
  {
    if f.files.Some? {
      var files := f.files.value;
      var ggufs := Sort(Weights(files), FileName);
      SortedWeights(files, ggufs);
      if HasWeights(f) {
        var k :| 0 <= k < |files| && IsWeights(files[k]);
        assert files[k] in ggufs;
        assert FirstWeights(f, ggufs[0]);
        HasTokenizerIff(files);
        assert Describes(PackageFrom(root, f, lossy).value, root, f, lossy, ggufs[0]);
      }
    }
  }

  lemma HasTokenizerIff(files: seq<File>)
    ensures HasTokenizer(files) <==> exists g :: g in files && g.isFile && g.name == TOKENIZER_JSON
  {
    if HasTokenizer(files) {
      var i :| 0 <= i < |files| && files[i].isFile && files[i].name == TOKENIZER_JSON;
      assert files[i] in files;
    }
  }

  lemma SortedWeights(files: seq<File>, ggufs: seq<File>)
    requires ggufs == Sort(Weights(files), FileName)
    ensures forall g :: g in ggufs <==> g in files && IsWeights(g)
    ensures ggufs != [] ==> exists k :: 0 <= k < |files| && IsWeights(files[k])
    ensures ggufs != [] ==> forall g :: g in ggufs ==> AtMost(ggufs[0].name, g.name)
  {
    SortKeeps(Weights(files), FileName);
    forall g
      ensures g in ggufs <==> g in files && IsWeights(g)
    {
      WeightsHold(files, g);
    }
    if ggufs != [] {
      FirstIsLeast(ggufs);
      assert ggufs[0] in files;
    }
  }

  lemma FirstIsLeast(ggufs: seq<File>)
    requires ggufs != [] && IsSorted(ggufs, FileName)
    ensures forall g :: g in ggufs ==> AtMost(ggufs[0].name, g.name)
  {
    forall g | g in ggufs
      ensures AtMost(ggufs[0].name, g.name)
    {
      var k :| 0 <= k < |ggufs| && ggufs[k] == g;
      AtMostIsTotal(g.name, g.name);
      assert k > 0 ==> AtMost(FileName(ggufs[0]), FileName(ggufs[k]));
    }
  }

  // ----------------------------------------------------------------------- one root

  predicate OffersName(f: Folder, lossy: Name -> Name, name: Name) {
    HasWeights(f) && lossy(f.name) == name
  }

  /** Folder `k` is the first to offer the name of its package, which is `p`. */
  predicate FirstToOffer(root: Name, dirs: seq<Folder>, lossy: Name -> Name, p: Package, k: nat) {
    && k < |dirs| && PackageFrom(root, dirs[k], lossy) == Some(p)
    && forall j :: 0 <= j < k ==> !OffersName(dirs[j], lossy, p.name)
  }

  lemma {:induction false} OffersOfDirs(root: Name, dirs: seq<Folder>, lossy: Name -> Name, name: Name)
    ensures Named(OffersOf(root, dirs, lossy), name)
       <==> exists k :: 0 <= k < |dirs| && OffersName(dirs[k], lossy, name)
  {
    if dirs != [] {
      var rest := dirs[1..];
      OffersOfDirs(root, rest, lossy, name);
      PackageIff(root, dirs[0], lossy);
      var head := if HasWeights(dirs[0]) then [PackageFrom(root, dirs[0], lossy).value] else [];
      NamedConcat(head, OffersOf(root, rest, lossy), name);
      assert Named(head, name) <==> OffersName(dirs[0], lossy, name) by {
        if HasWeights(dirs[0]) {
          assert head[0].name == lossy(dirs[0].name);
        }
      }
      forall k | 0 <= k < |rest|
        ensures rest[k] == dirs[k + 1]
      {}
      if exists k :: 0 <= k < |dirs| && OffersName(dirs[k], lossy, name) {
        var k :| 0 <= k < |dirs| && OffersName(dirs[k], lossy, name);
        assert k > 0 ==> OffersName(rest[k - 1], lossy, name);
      }
    }
  }

  lemma {:induction false} FirstOfDirs(root: Name, dirs: seq<Folder>, lossy: Name -> Name, p: Package)
    ensures FirstOfItsName(OffersOf(root, dirs, lossy), p) <==> exists k: nat :: FirstToOffer(root, dirs, lossy, p, k)
  {
    if dirs != [] {
      FirstOfDirs(root, dirs[1..], lossy, p);
      PackageIff(root, dirs[0], lossy);
      var offers := OffersOf(root, dirs[1..], lossy);
      if HasWeights(dirs[0]) {
        FirstAmong(PackageFrom(root, dirs[0], lossy).value, offers, p);
      } else {
        assert [] + offers == offers;
      }
      FirstFurtherOn(root, dirs, lossy, p);
    }
  }

  lemma FirstFurtherOn(root: Name, dirs: seq<Folder>, lossy: Name -> Name, p: Package)
    requires dirs != []
    ensures (exists k: nat :: FirstToOffer(root, dirs, lossy, p, k))
       <==> PackageFrom(root, dirs[0], lossy) == Some(p)
            || (!OffersName(dirs[0], lossy, p.name) && exists k: nat :: FirstToOffer(root, dirs[1..], lossy, p, k))
  {
    var rest := dirs[1..];
    if PackageFrom(root, dirs[0], lossy) == Some(p) {
      assert FirstToOffer(root, dirs, lossy, p, 0);
    }
    if !OffersName(dirs[0], lossy, p.name) && exists k: nat :: FirstToOffer(root, rest, lossy, p, k) {
      var k: nat :| FirstToOffer(root, rest, lossy, p, k);
      assert forall j :: 0 < j < k + 1 ==> dirs[j] == rest[j - 1];
      assert FirstToOffer(root, dirs, lossy, p, k + 1);
    }
    if exists k: nat :: FirstToOffer(root, dirs, lossy, p, k) {
      var k: nat :| FirstToOffer(root, dirs, lossy, p, k);
      if k > 0 {
        assert forall j :: 0 <= j < k - 1 ==> rest[j] == dirs[j + 1];
        assert FirstToOffer(root, rest, lossy, p, k - 1);
      }
    }
  }

  /** A folder of the root. */
  predicate InRoot(root: Root, f: Folder) {
    root.folders.Some? && f in root.folders.value && f.isDir
  }

  ghost predicate RootOffers(root: Root, lossy: Name -> Name, name: Name) {
    exists f :: InRoot(root, f) && OffersName(f, lossy, name)
  }

  /** `f` is the folder whose package wins its name in the root: of those that offer the name the
      first by folder name. */
  ghost predicate WinsRoot(root: Root, lossy: Name -> Name, p: Package, f: Folder) {
    && InRoot(root, f) && PackageFrom(root.path, f, lossy) == Some(p)
    && forall g :: InRoot(root, g) && OffersName(g, lossy, p.name) ==> AtMost(f.name, g.name)
  }

  function Sorted(root: Root): seq<Folder>
    requires root.folders.Some?
  {
    Sort(Folders(root.folders.value), FolderName)
  }

  lemma SortedHold(root: Root)
    requires root.folders.Some? && DistinctKeys(root.folders.value, FolderName)
    ensures forall f :: f in Sorted(root) <==> InRoot(root, f)
    ensures IsSorted(Sorted(root), FolderName) && DistinctKeys(Sorted(root), FolderName)
  {
    var dirs := Folders(root.folders.value);
    SortKeeps(dirs, FolderName);
    FoldersStayDistinct(root.folders.value);
    DistinctInAnyOrder(dirs, Sorted(root), FolderName);
    forall f
      ensures f in dirs <==> InRoot(root, f)
    {
      FoldersHold(root.folders.value, f);
    }
  }

  lemma RootNames(root: Root, lossy: Name -> Name, name: Name)
    requires root.folders.Some? ==> DistinctKeys(root.folders.value, FolderName)
    ensures Named(Offers(root, lossy), name) <==> RootOffers(root, lossy, name)
  {
    if root.folders.Some? {
      var dirs := Sorted(root);
      SortedHold(root);
      OffersOfDirs(root.path, dirs, lossy, name);
      if RootOffers(root, lossy, name) {
        var f :| InRoot(root, f) && OffersName(f, lossy, name);
        var k :| 0 <= k < |dirs| && dirs[k] == f;
      }
      if exists k :: 0 <= k < |dirs| && OffersName(dirs[k], lossy, name) {
        var k :| 0 <= k < |dirs| && OffersName(dirs[k], lossy, name);
        assert dirs[k] in dirs;
      }
    }
  }

  lemma FirstIsLeastFolder(root: Root, lossy: Name -> Name, p: Package, k: nat)
    requires root.folders.Some? && DistinctKeys(root.folders.value, FolderName)
    requires k < |Sorted(root)| && PackageFrom(root.path, Sorted(root)[k], lossy) == Some(p)
    ensures FirstToOffer(root.path, Sorted(root), lossy, p, k) <==> WinsRoot(root, lossy, p, Sorted(root)[k])
  {
    var dirs := Sorted(root);
    SortedHold(root);
    assert dirs[k] in dirs;
    forall j | 0 <= j < |dirs|
      ensures AtMost(dirs[k].name, dirs[j].name) <==> j >= k
    {
      PlaceByName(dirs, k, j);
    }
    if WinsRoot(root, lossy, p, dirs[k]) {
      assert forall j :: 0 <= j < k ==> dirs[j] in dirs;
    } else {
      var g :| InRoot(root, g) && OffersName(g, lossy, p.name) && !AtMost(dirs[k].name, g.name);
      var j :| 0 <= j < |dirs| && dirs[j] == g;
      assert j < k;
    }
  }

  lemma PlaceByName(dirs: seq<Folder>, k: nat, j: nat)
    requires k < |dirs| && j < |dirs| && IsSorted(dirs, FolderName) && DistinctKeys(dirs, FolderName)
    ensures AtMost(dirs[k].name, dirs[j].name) <==> j >= k
  {
    assert forall i :: 0 <= i < |dirs| ==> FolderName(dirs[i]) == dirs[i].name;
    AtMostIsTotal(dirs[k].name, dirs[k].name);
    if j < k {
      assert AtMost(FolderName(dirs[j]), FolderName(dirs[k])) && FolderName(dirs[j]) != FolderName(dirs[k]);
      if AtMost(dirs[k].name, dirs[j].name) {
        AtMostIsAntisymmetric(dirs[k].name, dirs[j].name);
      }
    } else if j > k {
      assert AtMost(FolderName(dirs[k]), FolderName(dirs[j]));
    }
  }

  lemma RootWinner(root: Root, lossy: Name -> Name, p: Package)
    requires root.folders.Some? ==> DistinctKeys(root.folders.value, FolderName)
    ensures FirstOfItsName(Offers(root, lossy), p) <==> exists f :: WinsRoot(root, lossy, p, f)
  {
    if root.folders.Some? {
      var dirs := Sorted(root);
      SortedHold(root);
      FirstOfDirs(root.path, dirs, lossy, p);
      if exists k: nat :: FirstToOffer(root.path, dirs, lossy, p, k) {
        var k: nat :| FirstToOffer(root.path, dirs, lossy, p, k);
        FirstIsLeastFolder(root, lossy, p, k);
      }
      if exists f :: WinsRoot(root, lossy, p, f) {
        var f :| WinsRoot(root, lossy, p, f);
        var k :| 0 <= k < |dirs| && dirs[k] == f;
        FirstIsLeastFolder(root, lossy, p, k);
      }
    }
  }

  // ---------------------------------------------------------------------- all roots

  /** The package of a folder in root `i`, whose name no earlier root offers. */
  ghost predicate IsWinner(roots: seq<Root>, lossy: Name -> Name, p: Package, i: nat) {
    && i < |roots| && (exists f :: WinsRoot(roots[i], lossy, p, f))
    && forall j :: 0 <= j < i ==> !RootOffers(roots[j], lossy, p.name)
  }

  /** The catalog, from folders and files alone: of every name some folder with weights offers,
      the package of the first such folder by name, in the earliest root that has one. */
  lemma CatalogFromFolders(roots: seq<Root>, lossy: Name -> Name, p: Package)
    requires forall i :: 0 <= i < |roots| ==>
      roots[i].folders.Some? ==> DistinctKeys(roots[i].folders.value, FolderName)
    ensures p in Catalog(roots, lossy) <==> exists i: nat :: IsWinner(roots, lossy, p, i)
  {
    CatalogHoldsWinners(roots, lossy, p);
    forall i: nat | i < |roots|
      ensures WinsAt(roots, lossy, p, i) <==> IsWinner(roots, lossy, p, i)
    {
      RootWinner(roots[i], lossy, p);
      forall j | 0 <= j < i
        ensures Named(Offers(roots[j], lossy), p.name) <==> RootOffers(roots[j], lossy, p.name)
      {
        RootNames(roots[j], lossy, p.name);
      }
    }
    if Wins(roots, lossy, p) {
      var i :| 0 <= i < |roots| && WinsAt(roots, lossy, p, i);
      assert IsWinner(roots, lossy, p, i);
    }
    if exists i: nat :: IsWinner(roots, lossy, p, i) {
      var i: nat :| IsWinner(roots, lossy, p, i);
      assert WinsAt(roots, lossy, p, i);
    }
  }
}
