/**
 The package digest: the bytes that `compute_package_digest` feeds to SHA-256.

 `meta.toml` and every file below the included directories are collected in directory
 listing order, sorted by relative path, stripped of duplicates, and each file adds its
 path, a NUL, the letter `f`, its length and its bytes. The hash itself stays abstract:
 the model is about its input.
 */
module PackageDigest {
  import opened Options

  type Byte = n: int | 0 <= n < 256
  type Name = seq<Byte>
  type Path = seq<Name>

  datatype Node = File(bytes: seq<Byte>) | Dir(list: Listing) | Symlink | Special

  /** A directory in the order in which the file system lists it. */
  datatype Listing = Empty | Item(name: Name, node: Node, rest: Listing)

  datatype FileEntry = FileEntry(path: seq<Byte>, bytes: seq<Byte>)

  const SLASH: Byte := 47
  const BACKSLASH: Byte := 92
  const LETTER_F: Byte := 102

  function Ascii(s: string): seq<Byte> {
    seq(|s|, i requires 0 <= i < |s| => s[i] as int % 256)
  }

  const META: Name := Ascii("meta.toml")

  // ---------------------------------------------------------------- files of a package

  function Join(p: Path): seq<Byte> {
    if p == [] then [] else if |p| == 1 then p[0] else p[0] + [SLASH] + Join(p[1..])
  }

  function Slashed(s: seq<Byte>): seq<Byte> {
    seq(|s|, i requires 0 <= i < |s| => if s[i] == BACKSLASH then SLASH else s[i])
  }

  /** The relative path that names a file in the digest. */
  function Rel(p: Path): seq<Byte> {
    Slashed(Join(p))
  }

  /** A relative path is its names with slashes between them, and slashes for backslashes. */
  lemma {:induction false} RelMeans(p: Path, n: Name)
    ensures Rel([n]) == Slashed(n) && (p != [] ==> Rel(p + [n]) == Rel(p) + [47] + Slashed(n))
    ensures |Slashed(n)| == |n| && forall i :: 0 <= i < |n| ==> Slashed(n)[i] == if n[i] == 92 then 47 else n[i]
  {
    if p != [] {
      var q := p + [n];
      assert q[0] == p[0] && q[1..] == p[1..] + [n];
      if |p| == 1 {
        assert q[1..] == [n];
        assert Join(q) == p[0] + [SLASH] + n;
      } else {
        RelMeans(p[1..], n);
        assert Join(q) == p[0] + [SLASH] + Join(q[1..]);
        assert Rel(q) == Slashed(p[0]) + [SLASH] + Rel(q[1..]);
        assert Rel(p) == Slashed(p[0]) + [SLASH] + Rel(p[1..]);
      }
    }
  }

  function Lookup(l: Listing, name: Name): Option<Node> {
    match l
    case Empty => None
    case Item(n, node, rest) => if n == name then Some(node) else Lookup(rest, name)
  }

  /** The node at a path below a directory; the empty path is the directory itself. */
  function At(l: Listing, p: Path): Option<Node>
    decreases |p|
  {
    if p == [] then Some(Dir(l))
    else
      var node := Lookup(l, p[0]);
      if |p| == 1 then node
      else if node.Some? && node.value.Dir? then At(node.value.list, p[1..])
      else None
  }

  predicate FileAt(l: Listing, p: Path, bytes: seq<Byte>) {
    At(l, p) == Some(File(bytes))
  }

  /** No directory lists a name twice. */
  predicate Proper(l: Listing) {
    match l
    case Empty => true
    case Item(n, node, rest) => Lookup(rest, n) == None && Proper(rest) && (node.Dir? ==> Proper(node.list))
  }

  /** `collect_tree` below `dir`: the files in listing order, or an error if there is a symlink. */
  function Collect(dir: Path, l: Listing): Option<seq<FileEntry>>
    decreases l
  {
    match l
    case Empty => Some([])
    case Item(n, node, rest) =>
      var here := Here(dir, n, node);
      var later := Collect(dir, rest);
      if here.Some? && later.Some? then Some(here.value + later.value) else None
  }

  /** What one listed entry adds. */
  function Here(dir: Path, n: Name, node: Node): Option<seq<FileEntry>>
    decreases node
  {
    match node
    case Symlink => None
    case Dir(sub) => Collect(dir + [n], sub)
    case File(bytes) => Some([FileEntry(Rel(dir + [n]), bytes)])
    case Special => Some([])
  }

  /** The files of one included directory; a path that is no directory has none. */
  function DirFiles(root: Listing, d: Path): Option<seq<FileEntry>> {
    var node := At(root, d);
    if node.Some? && node.value.Dir? then Collect(d, node.value.list) else Some([])
  }

  function CollectDirs(root: Listing, includes: seq<Path>): Option<seq<FileEntry>> {
    if includes == [] then Some([])
    else
      var here := DirFiles(root, includes[0]);
      var later := CollectDirs(root, includes[1..]);
      if here.Some? && later.Some? then Some(here.value + later.value) else None
  }

  function MetaFile(root: Listing): seq<FileEntry> {
    var node := Lookup(root, META);
    if node.Some? && node.value.File? then [FileEntry(META, node.value.bytes)] else []
  }

  function Files(root: Listing, includes: seq<Path>): Option<seq<FileEntry>> {
    var dirs := CollectDirs(root, includes);
    if dirs.Some? then Some(MetaFile(root) + dirs.value) else None
  }

  /** A path to a file that the digest covers: `meta.toml`, or something below an included directory. */
  ghost predicate Covered(root: Listing, includes: seq<Path>, p: Path, bytes: seq<Byte>) {
    FileAt(root, p, bytes) && (p == [META] || exists d :: d in includes && d < p)
  }

  lemma {:induction false} CollectSound(dir: Path, l: Listing, f: FileEntry) returns (p: Path)
    requires Proper(l) && Collect(dir, l).Some? && f in Collect(dir, l).value
    ensures p != [] && FileAt(l, p, f.bytes) && f.path == Rel(dir + p)
    decreases l
  {
    var Item(n, node, rest) := l;
    if f in Collect(dir, rest).value {
      p := CollectSound(dir, rest, f);
    } else if node.Dir? {
      var q := CollectSound(dir + [n], node.list, f);
      p := [n] + q;
      assert p[1..] == q && dir + [n] + q == dir + p;
    } else {
      p := [n];
    }
  }

  lemma {:induction false} CollectComplete(dir: Path, l: Listing, p: Path, bytes: seq<Byte>)
    requires Collect(dir, l).Some? && FileAt(l, p, bytes)
    ensures FileEntry(Rel(dir + p), bytes) in Collect(dir, l).value
    decreases l
  {
    var Item(n, node, rest) := l;
    if n != p[0] {
      CollectComplete(dir, rest, p, bytes);
    } else if |p| == 1 {
      assert p == [n];
    } else {
      CollectComplete(dir + [n], node.list, p[1..], bytes);
      assert dir + [n] + p[1..] == dir + p;
    }
  }

  lemma {:induction false} AtBelow(l: Listing, d: Path, p: Path)
    requires p != [] && At(l, d).Some? && At(l, d).value.Dir?
    ensures At(l, d + p) == At(At(l, d).value.list, p)
    decreases |d|
  {
    if d == [] {
      assert d + p == p;
    } else if |d| == 1 {
      assert (d + p)[0] == d[0] && (d + p)[1..] == p;
    } else {
      assert (d + p)[0] == d[0] && (d + p)[1..] == d[1..] + p;
      AtBelow(Lookup(l, d[0]).value.list, d[1..], p);
    }
  }

  lemma {:induction false} AtPrefix(l: Listing, d: Path, p: Path)
    requires d < p && At(l, p).Some?
    ensures At(l, d).Some? && At(l, d).value.Dir?
    decreases |d|
  {
    if |d| > 1 {
      AtPrefix(Lookup(l, p[0]).value.list, d[1..], p[1..]);
    }
  }

  lemma {:induction false} AtProper(l: Listing, p: Path)
    requires Proper(l) && At(l, p).Some? && At(l, p).value.Dir?
    ensures Proper(At(l, p).value.list)
    decreases |p|
  {
    if p != [] {
      LookupProper(l, p[0]);
    }
    if |p| > 1 {
      AtProper(Lookup(l, p[0]).value.list, p[1..]);
    }
  }

  lemma {:induction false} LookupProper(l: Listing, n: Name)
    requires Proper(l) && Lookup(l, n).Some? && Lookup(l, n).value.Dir?
    ensures Proper(Lookup(l, n).value.list)
  {
    if l.name != n {
      LookupProper(l.rest, n);
    }
  }

  ghost predicate Under(root: Listing, d: Path, p: Path, f: FileEntry) {
    d < p && FileAt(root, p, f.bytes) && f.path == Rel(p)
  }

  lemma OneDirMembers(root: Listing, d: Path, f: FileEntry)
    requires Proper(root) && At(root, d).Some? && At(root, d).value.Dir? && Collect(d, At(root, d).value.list).Some?
    ensures f in Collect(d, At(root, d).value.list).value <==> exists p :: Under(root, d, p, f)
  {
    var l := At(root, d).value.list;
    AtProper(root, d);
    if f in Collect(d, l).value {
      var q := CollectSound(d, l, f);
      AtBelow(root, d, q);
      assert Under(root, d, d + q, f);
    }
    forall p | Under(root, d, p, f) ensures f in Collect(d, l).value {
      var q := p[|d|..];
      assert p == d + q;
      AtBelow(root, d, q);
      CollectComplete(d, l, q, f.bytes);
    }
  }

  lemma {:induction false} CollectDirsMembers(root: Listing, includes: seq<Path>, f: FileEntry)
    requires Proper(root) && CollectDirs(root, includes).Some?
    ensures f in CollectDirs(root, includes).value <==> exists d, p :: d in includes && Under(root, d, p, f)
  {
    if includes != [] {
      CollectDirsMembers(root, includes[1..], f);
      var d := includes[0];
      assert forall e :: e in includes <==> e == d || e in includes[1..];
      if At(root, d).Some? && At(root, d).value.Dir? {
        OneDirMembers(root, d, f);
      } else {
        forall p | Under(root, d, p, f) ensures false {
          AtPrefix(root, d, p);
        }
      }
    }
  }

  /** The collected files are exactly the covered ones, whatever the listing order. */
  lemma FilesAreCovered(root: Listing, includes: seq<Path>, f: FileEntry)
    requires Proper(root) && Files(root, includes).Some?
    ensures f in Files(root, includes).value <==> exists p :: Covered(root, includes, p, f.bytes) && f.path == Rel(p)
  {
    CollectDirsMembers(root, includes, f);
    assert Join([META]) == META;
    assert Rel([META]) == META;
    if f in MetaFile(root) {
      assert At(root, [META]) == Lookup(root, META);
      assert Covered(root, includes, [META], f.bytes);
    }
    forall p | Covered(root, includes, p, f.bytes) && f.path == Rel(p) ensures f in Files(root, includes).value {
      if p == [META] {
        assert At(root, [META]) == Lookup(root, META);
      } else {
        var d :| d in includes && d < p;
        assert Under(root, d, p, f);
      }
    }
  }

  // ---------------------------------------------------------------- order

  predicate Less(a: seq<Byte>, b: seq<Byte>) {
    b != [] && (a == [] || a[0] < b[0] || (a[0] == b[0] && Less(a[1..], b[1..])))
  }

  lemma {:induction false} LessTotal(a: seq<Byte>, b: seq<Byte>)
    ensures Less(a, b) || Less(b, a) || a == b
    ensures !(Less(a, b) && Less(b, a)) && !Less(a, a)
  {
    if a != [] {
      if b != [] {
        LessTotal(a[1..], b[1..]);
      }
      LessTotal(a[1..], a[1..]);
    }
  }

  /** Up to `k` the two agree; then the first one ends, or has the smaller byte. */
  predicate SmallerAt(a: seq<Byte>, b: seq<Byte>, k: nat) {
    k <= |a| && k < |b| && a[..k] == b[..k] && (k == |a| || a[k] < b[k])
  }

  /** Paths are ordered byte by byte, a prefix first. */
  lemma {:induction false} LessMeans(a: seq<Byte>, b: seq<Byte>)
    ensures Less(a, b) <==> exists k: nat :: SmallerAt(a, b, k)
  {
    if a != [] && b != [] && a[0] == b[0] {
      LessMeans(a[1..], b[1..]);
      if k: nat :| SmallerAt(a[1..], b[1..], k) {
        assert a[..k + 1] == [a[0]] + a[1..][..k] && b[..k + 1] == [b[0]] + b[1..][..k];
        assert SmallerAt(a, b, k + 1);
      }
      if k: nat :| SmallerAt(a, b, k) {
        assert k > 0;
        assert a[1..][..k - 1] == a[..k][1..] && b[1..][..k - 1] == b[..k][1..];
        assert SmallerAt(a[1..], b[1..], k - 1);
      }
    } else if Less(a, b) {
      assert SmallerAt(a, b, 0);
    } else {
      forall k: nat ensures !SmallerAt(a, b, k) {
        if k > 0 && k <= |a| && k < |b| {
          assert a[..k][0] == a[0] && b[..k][0] == b[0];
        }
      }
    }
  }

  lemma {:induction false} LessTransitive(a: seq<Byte>, b: seq<Byte>, c: seq<Byte>)
    requires Less(a, b) && Less(b, c)
    ensures Less(a, c)
  {
    if a != [] && a[0] == b[0] && b[0] == c[0] {
      LessTransitive(a[1..], b[1..], c[1..]);
    }
  }

  // ---------------------------------------------------------------- sort and dedup

  /** Put `f` before the first entry whose path is not smaller: equal paths keep their order. */
  function Insert(f: FileEntry, xs: seq<FileEntry>): seq<FileEntry> {
    if xs != [] && Less(xs[0].path, f.path) then [xs[0]] + Insert(f, xs[1..]) else [f] + xs
  }

  /** The stable sort by path. */
  function Sort(files: seq<FileEntry>): seq<FileEntry> {
    if files == [] then [] else Insert(files[0], Sort(files[1..]))
  }

  /** `r` with `a` before it; a first entry with the path of `a` gives way. */
  function Lead(a: FileEntry, r: seq<FileEntry>): seq<FileEntry> {
    if r != [] && r[0].path == a.path then [a] + r[1..] else [a] + r
  }

  /** Of neighbours with equal paths the first stays. */
  function Dedup(xs: seq<FileEntry>): (r: seq<FileEntry>)
    ensures xs == [] <==> r == []
    ensures xs != [] ==> r[0] == xs[0]
  {
    if xs == [] then [] else Lead(xs[0], Dedup(xs[1..]))
  }

  ghost predicate Sorted(xs: seq<FileEntry>) {
    xs == [] || ((forall g :: g in xs[1..] ==> !Less(g.path, xs[0].path)) && Sorted(xs[1..]))
  }

  ghost predicate Increasing(xs: seq<FileEntry>) {
    xs == [] || ((forall g :: g in xs[1..] ==> Less(xs[0].path, g.path)) && Increasing(xs[1..]))
  }

  lemma InHeadOrTail(xs: seq<FileEntry>, f: FileEntry)
    requires xs != []
    ensures f in xs <==> f == xs[0] || f in xs[1..]
  {
  }

  lemma {:induction false} InsertSorted(f: FileEntry, xs: seq<FileEntry>)
    requires Sorted(xs)
    ensures Sorted(Insert(f, xs))
    ensures forall g :: g in Insert(f, xs) <==> g == f || g in xs
  {
    if xs != [] && Less(xs[0].path, f.path) {
      var r := Insert(f, xs[1..]);
      InsertSorted(f, xs[1..]);
      LessTotal(xs[0].path, f.path);
      assert Insert(f, xs)[1..] == r;
      assert forall g :: g in xs <==> g == xs[0] || g in xs[1..];
    } else {
      assert Insert(f, xs)[1..] == xs;
      forall g | g in xs ensures !Less(g.path, f.path) {
        InHeadOrTail(xs, g);
        if g != xs[0] {
          LessTotal(f.path, xs[0].path);
          LessTotal(xs[0].path, g.path);
          if Less(g.path, f.path) && Less(f.path, xs[0].path) {
            LessTransitive(g.path, f.path, xs[0].path);
          }
        }
      }
    }
  }

  lemma {:induction false} SortSorts(files: seq<FileEntry>)
    ensures Sorted(Sort(files))
    ensures forall g :: g in Sort(files) <==> g in files
  {
    if files != [] {
      SortSorts(files[1..]);
      InsertSorted(files[0], Sort(files[1..]));
      assert forall g :: g in files <==> g == files[0] || g in files[1..];
    }
  }

  function DedupTail(xs: seq<FileEntry>): seq<FileEntry>
    requires xs != []
  {
    var r := Dedup(xs[1..]);
    if r != [] && r[0].path == xs[0].path then r[1..] else r
  }

  lemma DedupStep(xs: seq<FileEntry>, f: FileEntry)
    requires xs != []
    ensures Dedup(xs) == [xs[0]] + DedupTail(xs) && Dedup(xs)[1..] == DedupTail(xs)
    ensures f in Dedup(xs) <==> f == xs[0] || f in DedupTail(xs)
    ensures f in DedupTail(xs) ==> f in Dedup(xs[1..])
    ensures f in Dedup(xs[1..]) ==> f in DedupTail(xs) || f.path == xs[0].path
  {
    var r := Dedup(xs[1..]);
    if r != [] {
      InHeadOrTail(r, f);
    }
  }

  lemma {:induction false} DedupKeeps(xs: seq<FileEntry>, f: FileEntry)
    ensures f in Dedup(xs) ==> f in xs
    ensures f in xs ==> exists g :: g in Dedup(xs) && g.path == f.path
  {
    if xs != [] {
      DedupKeeps(xs[1..], f);
      DedupStep(xs, f);
      InHeadOrTail(xs, f);
      if f in xs[1..] {
        var g :| g in Dedup(xs[1..]) && g.path == f.path;
        DedupStep(xs, g);
        assert xs[0] in Dedup(xs);
      }
    }
  }

  lemma {:induction false} DedupIncreasing(xs: seq<FileEntry>)
    requires Sorted(xs)
    ensures Increasing(Dedup(xs))
  {
    if xs != [] {
      var r, t := Dedup(xs[1..]), DedupTail(xs);
      DedupIncreasing(xs[1..]);
      DedupStep(xs, xs[0]);
      assert Increasing(t);
      forall f | f in t ensures Less(xs[0].path, f.path) {
        DedupStep(xs, f);
        InHeadOrTail(r, f);
        DedupKeeps(xs[1..], f);
        DedupKeeps(xs[1..], r[0]);
        LessTotal(xs[0].path, r[0].path);
        if f != r[0] && r[0].path != xs[0].path {
          LessTransitive(xs[0].path, r[0].path, f.path);
        }
      }
    }
  }

  /** The files in the order in which they are hashed. */
  function Canonical(files: seq<FileEntry>): seq<FileEntry> {
    Dedup(Sort(files))
  }

  /** Files with the same relative path have the same bytes. */
  ghost predicate Consistent(files: seq<FileEntry>) {
    forall f, g :: f in files && g in files && f.path == g.path ==> f == g
  }

  lemma CanonicalFacts(files: seq<FileEntry>)
    ensures Increasing(Canonical(files))
    ensures forall f :: f in Canonical(files) ==> f in files
    ensures forall f :: f in files ==> exists g :: g in Canonical(files) && g.path == f.path
    ensures Consistent(files) ==> forall f :: f in files ==> f in Canonical(files)
  {
    SortSorts(files);
    DedupIncreasing(Sort(files));
    forall f ensures (f in Canonical(files) ==> f in files) && (f in files ==> exists g :: g in Canonical(files) && g.path == f.path) {
      DedupKeeps(Sort(files), f);
    }
  }

  /** A strictly increasing list is determined by its elements. */
  lemma {:induction false} IncreasingUnique(xs: seq<FileEntry>, ys: seq<FileEntry>)
    requires Increasing(xs) && Increasing(ys)
    requires forall f :: f in xs <==> f in ys
    ensures xs == ys
  {
    assert xs != [] ==> xs[0] in ys;
    assert ys != [] ==> ys[0] in xs;
    if xs != [] {
      InHeadOrTail(xs, ys[0]);
      InHeadOrTail(ys, xs[0]);
      LessTotal(xs[0].path, ys[0].path);
      assert xs[0] == ys[0];
      forall f ensures f in xs[1..] <==> f in ys[1..] {
        InHeadOrTail(xs, f);
        InHeadOrTail(ys, f);
        LessTotal(f.path, f.path);
      }
      IncreasingUnique(xs[1..], ys[1..]);
    }
  }

  // ---------------------------------------------------------------- encoding

  /** The low `k` bytes of `n`, least significant first; eight of them are what the cast to `u64` keeps of a length. */
  function LittleEndian(n: nat, k: nat): (r: seq<Byte>)
    ensures |r| == k
  {
    if k == 0 then [] else [n % 256] + LittleEndian(n / 256, k - 1)
  }

  function Pow256(k: nat): nat {
    if k == 0 then 1 else 256 * Pow256(k - 1)
  }

  /** The number that bytes stand for, least significant first. */
  function Number(s: seq<Byte>): nat {
    if s == [] then 0 else s[0] + 256 * Number(s[1..])
  }

  lemma {:induction false} NumberOf(n: nat, k: nat)
    requires n < Pow256(k)
    ensures Number(LittleEndian(n, k)) == n
  {
    if k > 0 {
      NumberOf(n / 256, k - 1);
      assert LittleEndian(n, k)[1..] == LittleEndian(n / 256, k - 1);
    }
  }

  function Encode(f: FileEntry): seq<Byte> {
    f.path + [0] + [LETTER_F] + LittleEndian(|f.bytes|, 8) + f.bytes
  }

  function EncodeAll(xs: seq<FileEntry>): seq<Byte> {
    if xs == [] then [] else Encode(xs[0]) + EncodeAll(xs[1..])
  }

  /** What the length field can hold, and what a file system allows in a name. */
  predicate Encodable(f: FileEntry) {
    0 !in f.path && |f.bytes| < 0x1_0000_0000_0000_0000
  }

  function NulAt(s: seq<Byte>): (k: nat)
    ensures k <= |s| && (k < |s| ==> s[k] == 0) && forall j :: 0 <= j < k ==> s[j] != 0
  {
    if s == [] || s[0] == 0 then 0 else 1 + NulAt(s[1..])
  }

  /** Reads one file back: a path up to the first NUL, the letter `f`, eight bytes of length, the contents. */
  function Decode(s: seq<Byte>): (r: Option<(FileEntry, seq<Byte>)>)
    ensures r.Some? ==> |r.value.1| < |s|
  {
    var i := NulAt(s);
    if i + 10 > |s| || s[i + 1] != 102 then None
    else
      var end := i + 10 + Number(s[i + 2..i + 10]);
      if end > |s| then None else Some((FileEntry(s[..i], s[i + 10..end]), s[end..]))
  }

  function DecodeAll(s: seq<Byte>): Option<seq<FileEntry>>
    decreases |s|
  {
    if s == [] then Some([])
    else
      var first := Decode(s);
      if first.None? then None
      else
        var later := DecodeAll(first.value.1);
        if later.None? then None else Some([first.value.0] + later.value)
  }

  lemma Parts(path: seq<Byte>, length: seq<Byte>, bytes: seq<Byte>, rest: seq<Byte>)
    requires 0 !in path && |length| == 8
    ensures var s, i := path + [0] + [LETTER_F] + length + bytes + rest, |path|;
            && |s| == i + 10 + |bytes| + |rest| && NulAt(s) == i && s[i + 1] == 102 && s[..i] == path && s[i + 2..i + 10] == length
            && s[i + 10..i + 10 + |bytes|] == bytes && s[i + 10 + |bytes|..] == rest
  {
    var s, i := path + [0] + [LETTER_F] + length + bytes + rest, |path|;
    assert s[i] == 0;
    assert forall j :: 0 <= j < i ==> s[j] == path[j];
  }

  lemma DecodeEncode(f: FileEntry, rest: seq<Byte>)
    requires Encodable(f)
    ensures Decode(Encode(f) + rest) == Some((f, rest))
  {
    var length := LittleEndian(|f.bytes|, 8);
    Pow256Of8();
    NumberOf(|f.bytes|, 8);
    Parts(f.path, length, f.bytes, rest);
  }

  /** What is fed to the hash can be read back, file by file. */
  lemma {:induction false} DecodeRoundTrip(xs: seq<FileEntry>)
    requires forall f :: f in xs ==> Encodable(f)
    ensures DecodeAll(EncodeAll(xs)) == Some(xs)
  {
    if xs != [] {
      DecodeEncode(xs[0], EncodeAll(xs[1..]));
      DecodeRoundTrip(xs[1..]);
      assert xs == [xs[0]] + xs[1..];
    }
  }

  lemma Pow256Of8()
    ensures Pow256(8) == 0x1_0000_0000_0000_0000
  {
    assert Pow256(2) == 65536;
    assert Pow256(4) == 65536 * 65536 by { assert Pow256(3) == 256 * 65536; }
    assert Pow256(6) == 65536 * 65536 * 65536 by { assert Pow256(5) == 256 * Pow256(4); }
    assert Pow256(7) == 256 * Pow256(6);
  }

  /** The encoding of a list of files can be read in one way only. */
  lemma EncodeAllInjective(xs: seq<FileEntry>, ys: seq<FileEntry>)
    requires (forall f :: f in xs ==> Encodable(f)) && (forall f :: f in ys ==> Encodable(f))
    requires EncodeAll(xs) == EncodeAll(ys)
    ensures xs == ys
  {
    DecodeRoundTrip(xs);
    DecodeRoundTrip(ys);
  }

  // ---------------------------------------------------------------- the digest input

  /** The bytes fed to the hash. */
  function Preimage(files: seq<FileEntry>): seq<Byte> {
    EncodeAll(Canonical(files))
  }

  ghost predicate AllEncodable(files: seq<FileEntry>) {
    forall f :: f in files ==> Encodable(f)
  }

  /** Consistent file lists feed the hash the same bytes exactly when they hold the same files. */
  lemma PreimageCanonical(a: seq<FileEntry>, b: seq<FileEntry>)
    requires Consistent(a) && Consistent(b) && AllEncodable(a) && AllEncodable(b)
    ensures Preimage(a) == Preimage(b) <==> forall f :: f in a <==> f in b
  {
    CanonicalFacts(a);
    CanonicalFacts(b);
    if Preimage(a) == Preimage(b) {
      EncodeAllInjective(Canonical(a), Canonical(b));
    }
    if forall f :: f in a <==> f in b {
      IncreasingUnique(Canonical(a), Canonical(b));
    }
  }

  /** The package has a covered file with this relative path and these bytes. */
  ghost predicate Includes(root: Listing, includes: seq<Path>, f: FileEntry) {
    exists p :: Covered(root, includes, p, f.bytes) && f.path == Rel(p)
  }

  /**
   Canonical and injective: two packages feed the hash the same bytes if and only if their
   covered files are the same, whatever the listing orders and however the included
   directories repeat or overlap.
   */
  lemma DigestCanonical(r1: Listing, d1: seq<Path>, r2: Listing, d2: seq<Path>)
    requires Proper(r1) && Proper(r2) && Files(r1, d1).Some? && Files(r2, d2).Some?
    requires Consistent(Files(r1, d1).value) && Consistent(Files(r2, d2).value)
    requires AllEncodable(Files(r1, d1).value) && AllEncodable(Files(r2, d2).value)
    ensures Preimage(Files(r1, d1).value) == Preimage(Files(r2, d2).value) <==>
            forall f :: Includes(r1, d1, f) <==> Includes(r2, d2, f)
  {
    var a, b := Files(r1, d1).value, Files(r2, d2).value;
    forall f ensures (f in a <==> Includes(r1, d1, f)) && (f in b <==> Includes(r2, d2, f)) {
      FilesAreCovered(r1, d1, f);
      FilesAreCovered(r2, d2, f);
    }
    PreimageCanonical(a, b);
  }

  /** Paths that stay distinct after normalisation make a package consistent. */
  lemma DistinctPathsConsistent(root: Listing, includes: seq<Path>)
    requires Proper(root) && Files(root, includes).Some?
    requires forall p, q, b, c :: Covered(root, includes, p, b) && Covered(root, includes, q, c) && Rel(p) == Rel(q) ==> p == q
    ensures Consistent(Files(root, includes).value)
  {
    var files := Files(root, includes).value;
    forall f, g | f in files && g in files && f.path == g.path ensures f == g {
      FilesAreCovered(root, includes, f);
      FilesAreCovered(root, includes, g);
      var p :| Covered(root, includes, p, f.bytes) && f.path == Rel(p);
      var q :| Covered(root, includes, q, g.bytes) && g.path == Rel(q);
      assert p == q;
    }
  }

  // ---------------------------------------------------------------- the first file of each path

  /** The first file with a path. */
  function First(files: seq<FileEntry>, path: seq<Byte>): Option<FileEntry> {
    if files == [] then None else if files[0].path == path then Some(files[0]) else First(files[1..], path)
  }

  lemma {:induction false} FirstIn(files: seq<FileEntry>, path: seq<Byte>)
    ensures var f := First(files, path); f.Some? ==> f.value in files && f.value.path == path
    ensures First(files, path).None? ==> forall f :: f in files ==> f.path != path
  {
    if files != [] && files[0].path != path {
      FirstIn(files[1..], path);
      assert forall f :: f in files <==> f == files[0] || f in files[1..];
    }
  }

  lemma DedupAbove(a: FileEntry, xs: seq<FileEntry>, g: FileEntry)
    requires Sorted(xs) && forall x :: x in xs ==> !Less(x.path, a.path)
    ensures g in Lead(a, Dedup(xs)) <==> g == a || (g in Dedup(xs) && g.path != a.path)
  {
    var d := Dedup(xs);
    DedupIncreasing(xs);
    if d != [] {
      DedupKeeps(xs, d[0]);
      InHeadOrTail(d, g);
      LessTotal(a.path, a.path);
      LessTotal(a.path, d[0].path);
    }
  }

  /** Inserting a file in front of its equals makes it the one that stays. */
  lemma {:induction false} DedupInsert(f: FileEntry, xs: seq<FileEntry>, g: FileEntry)
    requires Sorted(xs)
    ensures g in Dedup(Insert(f, xs)) <==> g == f || (g in Dedup(xs) && g.path != f.path)
  {
    if xs != [] && Less(xs[0].path, f.path) {
      var t := xs[1..];
      DedupInsert(f, t, g);
      InsertSorted(f, t);
      LessTotal(xs[0].path, f.path);
      DedupAbove(xs[0], Insert(f, t), g);
      DedupAbove(xs[0], t, g);
      assert Insert(f, xs)[1..] == Insert(f, t);
    } else {
      assert Insert(f, xs)[1..] == xs;
      forall x | x in xs ensures !Less(x.path, f.path) {
        InHeadOrTail(xs, x);
        if x != xs[0] {
          LessTotal(f.path, xs[0].path);
          LessTotal(xs[0].path, x.path);
          if Less(x.path, f.path) && Less(f.path, xs[0].path) {
            LessTransitive(x.path, f.path, xs[0].path);
          }
        }
      }
      DedupAbove(f, xs, g);
    }
  }

  /** The stable sort and the dedup keep, of every path, the file that was collected first. */
  lemma {:induction false} CanonicalFirst(files: seq<FileEntry>, g: FileEntry)
    ensures g in Canonical(files) <==> First(files, g.path) == Some(g)
  {
    if files != [] {
      CanonicalFirst(files[1..], g);
      SortSorts(files[1..]);
      DedupInsert(files[0], Sort(files[1..]), g);
    }
  }

  ghost predicate SameFirsts(a: seq<FileEntry>, b: seq<FileEntry>) {
    forall path :: First(a, path) == First(b, path)
  }

  lemma CanonicalSameFirsts(a: seq<FileEntry>, b: seq<FileEntry>)
    requires Canonical(a) == Canonical(b)
    ensures SameFirsts(a, b)
  {
    forall path ensures First(a, path) == First(b, path) {
      FirstIn(a, path);
      FirstIn(b, path);
      if First(a, path).Some? {
        CanonicalFirst(a, First(a, path).value);
        CanonicalFirst(b, First(a, path).value);
      } else if First(b, path).Some? {
        CanonicalFirst(a, First(b, path).value);
        CanonicalFirst(b, First(b, path).value);
      }
    }
  }

  lemma FirstsSameCanonical(a: seq<FileEntry>, b: seq<FileEntry>)
    requires SameFirsts(a, b)
    ensures Canonical(a) == Canonical(b)
  {
    SortSorts(a);
    SortSorts(b);
    DedupIncreasing(Sort(a));
    DedupIncreasing(Sort(b));
    forall f ensures f in Canonical(a) <==> f in Canonical(b) {
      CanonicalFirst(a, f);
      CanonicalFirst(b, f);
      assert First(a, f.path) == First(b, f.path);
    }
    IncreasingUnique(Canonical(a), Canonical(b));
  }

  lemma CanonicalEncodable(files: seq<FileEntry>)
    requires AllEncodable(files)
    ensures forall f :: f in Canonical(files) ==> Encodable(f)
  {
    CanonicalFacts(files);
  }

  /** Two collections feed the hash the same bytes exactly if they have the same first file of every path. */
  lemma PreimageIffFirst(a: seq<FileEntry>, b: seq<FileEntry>)
    requires AllEncodable(a) && AllEncodable(b)
    ensures Preimage(a) == Preimage(b) <==> SameFirsts(a, b)
  {
    if Preimage(a) == Preimage(b) {
      CanonicalEncodable(a);
      CanonicalEncodable(b);
      EncodeAllInjective(Canonical(a), Canonical(b));
      CanonicalSameFirsts(a, b);
    }
    if SameFirsts(a, b) {
      FirstsSameCanonical(a, b);
    }
  }

  // ---------------------------------------------------------------- collection in groups

  function DirGroups(root: Listing, includes: seq<Path>): seq<seq<FileEntry>> {
    seq(|includes|, i requires 0 <= i < |includes| => DirFiles(root, includes[i]).GetOr([]))
  }

  /** Group 0 is `meta.toml`, group k is the k-th included directory. */
  function Groups(root: Listing, includes: seq<Path>): seq<seq<FileEntry>> {
    [MetaFile(root)] + DirGroups(root, includes)
  }

  function Flatten(gs: seq<seq<FileEntry>>): seq<FileEntry> {
    if gs == [] then [] else gs[0] + Flatten(gs[1..])
  }

  lemma {:induction false} DirsAreGroups(root: Listing, includes: seq<Path>)
    requires CollectDirs(root, includes).Some?
    ensures CollectDirs(root, includes).value == Flatten(DirGroups(root, includes))
  {
    if includes != [] {
      DirsAreGroups(root, includes[1..]);
      assert DirGroups(root, includes)[1..] == DirGroups(root, includes[1..]);
    }
  }

  lemma {:induction false} FirstAppend(a: seq<FileEntry>, b: seq<FileEntry>, path: seq<Byte>)
    ensures First(a + b, path) == if First(a, path).Some? then First(a, path) else First(b, path)
  {
    if a == [] {
      assert a + b == b;
    } else {
      assert (a + b)[1..] == a[1..] + b;
      FirstAppend(a[1..], b, path);
    }
  }

  /** The first file of a path comes from the first group that has one. */
  lemma {:induction false} FlattenFirst(gs: seq<seq<FileEntry>>, path: seq<Byte>) returns (k: nat)
    requires First(Flatten(gs), path).Some?
    ensures k < |gs| && First(gs[k], path) == First(Flatten(gs), path)
    ensures forall j :: 0 <= j < k ==> First(gs[j], path).None?
  {
    FirstAppend(gs[0], Flatten(gs[1..]), path);
    if First(gs[0], path).Some? {
      k := 0;
    } else {
      var i := FlattenFirst(gs[1..], path);
      k := i + 1;
      assert forall j :: 0 < j < k ==> gs[j] == gs[1..][j - 1];
    }
  }

  lemma {:induction false} FlattenHas(gs: seq<seq<FileEntry>>, k: nat, path: seq<Byte>)
    requires k < |gs| && First(gs[k], path).Some?
    ensures First(Flatten(gs), path).Some?
  {
    FirstAppend(gs[0], Flatten(gs[1..]), path);
    if k > 0 {
      FlattenHas(gs[1..], k - 1, path);
    }
  }

  // ---------------------------------------------------------------- symlinks

  lemma {:induction false} RefusedHasSymlink(dir: Path, l: Listing) returns (p: Path)
    requires Proper(l) && Collect(dir, l) == None
    ensures p != [] && At(l, p) == Some(Symlink)
    decreases l
  {
    var Item(n, node, rest) := l;
    if node.Symlink? {
      p := [n];
    } else if Here(dir, n, node) == None {
      var q := RefusedHasSymlink(dir + [n], node.list);
      p := [n] + q;
      assert p[1..] == q;
    } else {
      p := RefusedHasSymlink(dir, rest);
    }
  }

  lemma {:induction false} CollectedHasNoSymlink(dir: Path, l: Listing, p: Path)
    requires Collect(dir, l).Some?
    ensures At(l, p) != Some(Symlink)
    decreases l
  {
    if p != [] && l.Item? {
      if l.name != p[0] {
        CollectedHasNoSymlink(dir, l.rest, p);
      } else if |p| > 1 && l.node.Dir? {
        CollectedHasNoSymlink(dir + [l.name], l.node.list, p[1..]);
      }
    }
  }

  lemma DirRefused(root: Listing, d: Path)
    requires Proper(root)
    ensures DirFiles(root, d) == None <==> exists p :: d < p && At(root, p) == Some(Symlink)
  {
    if At(root, d).Some? && At(root, d).value.Dir? {
      var l := At(root, d).value.list;
      AtProper(root, d);
      if Collect(d, l) == None {
        var q := RefusedHasSymlink(d, l);
        AtBelow(root, d, q);
        assert d < d + q;
      }
      forall p | d < p && At(root, p) == Some(Symlink) ensures Collect(d, l) == None {
        assert p == d + p[|d|..];
        AtBelow(root, d, p[|d|..]);
        if Collect(d, l).Some? {
          CollectedHasNoSymlink(d, l, p[|d|..]);
        }
      }
    } else {
      forall p | d < p ensures At(root, p) != Some(Symlink) {
        if At(root, p).Some? {
          AtPrefix(root, d, p);
        }
      }
    }
  }

  /** Some included directory has a symlink somewhere below it. */
  ghost predicate Linked(root: Listing, includes: seq<Path>) {
    exists i, p :: 0 <= i < |includes| && includes[i] < p && At(root, p) == Some(Symlink)
  }

  lemma {:induction false} DirsRefused(root: Listing, includes: seq<Path>)
    requires Proper(root)
    ensures CollectDirs(root, includes) == None <==> exists i :: 0 <= i < |includes| && DirFiles(root, includes[i]) == None
  {
    if includes != [] {
      DirsRefused(root, includes[1..]);
      assert forall i :: 0 < i < |includes| ==> includes[i] == includes[1..][i - 1];
      if CollectDirs(root, includes[1..]) == None {
        var i :| 0 <= i < |includes| - 1 && DirFiles(root, includes[1..][i]) == None;
        assert DirFiles(root, includes[i + 1]) == None;
      }
    }
  }

  /** A package is refused exactly if there is a symlink below one of its included directories. */
  lemma RefusedIffLinked(root: Listing, includes: seq<Path>)
    requires Proper(root)
    ensures Files(root, includes) == None <==> Linked(root, includes)
  {
    DirsRefused(root, includes);
    forall i | 0 <= i < |includes|
      ensures DirFiles(root, includes[i]) == None <==> exists p :: includes[i] < p && At(root, p) == Some(Symlink)
    {
      DirRefused(root, includes[i]);
    }
  }

  // ---------------------------------------------------------------- listing order

  datatype Kind = Nothing | Folder | Contents(bytes: seq<Byte>) | Link | Other

  /** What is at a path, whatever the order in which a directory lists its entries. */
  function KindOf(node: Option<Node>): Kind {
    match node
    case None => Nothing
    case Some(File(bytes)) => Contents(bytes)
    case Some(Dir(_)) => Folder
    case Some(Symlink) => Link
    case Some(Special) => Other
  }

  predicate SameAt(a: Listing, b: Listing, p: Path) {
    KindOf(At(a, p)) == KindOf(At(b, p))
  }

  /** The same tree, with the entries of each directory in any order, at every level. */
  ghost predicate Relisting(a: Listing, b: Listing) {
    Proper(a) && Proper(b) && forall p :: SameAt(a, b, p)
  }

  /** The file at `p` belongs to group `k`, as the entry `f`. */
  ghost predicate Places(root: Listing, includes: seq<Path>, k: nat, p: Path, f: FileEntry) {
    FileAt(root, p, f.bytes) && f.path == Rel(p) &&
    if k == 0 then p == [META] else k <= |includes| && includes[k - 1] < p
  }

  ghost predicate Yields(root: Listing, includes: seq<Path>, k: nat, f: FileEntry) {
    exists p :: Places(root, includes, k, p, f)
  }

  /** A group before the `k`-th has a file with this relative path. */
  ghost predicate Earlier(root: Listing, includes: seq<Path>, k: nat, path: seq<Byte>) {
    exists j: nat, f :: j < k && Yields(root, includes, j, f) && f.path == path
  }

  /** Two files with one relative path in the first group that has it. */
  ghost predicate Rivals(root: Listing, includes: seq<Path>, k: nat, f: FileEntry, g: FileEntry) {
    Yields(root, includes, k, f) && Yields(root, includes, k, g) && f.path == g.path && !Earlier(root, includes, k, f.path)
  }

  /**
   Of every relative path, all files in the first place that has it have the same bytes: the
   first place is `meta.toml`, or the first included directory with such a file below it.
   */
  ghost predicate Unambiguous(root: Listing, includes: seq<Path>) {
    forall k: nat, f, g :: Rivals(root, includes, k, f, g) ==> f == g
  }

  lemma RelistingYields(a: Listing, b: Listing, includes: seq<Path>, k: nat, f: FileEntry)
    requires Relisting(a, b)
    ensures Yields(a, includes, k, f) <==> Yields(b, includes, k, f)
  {
    forall p ensures Places(a, includes, k, p, f) <==> Places(b, includes, k, p, f) {
      assert SameAt(a, b, p);
    }
  }

  lemma RelistingEarlier(a: Listing, b: Listing, includes: seq<Path>, k: nat, path: seq<Byte>)
    requires Relisting(a, b)
    ensures Earlier(a, includes, k, path) <==> Earlier(b, includes, k, path)
  {
    forall j: nat, f ensures Yields(a, includes, j, f) <==> Yields(b, includes, j, f) {
      RelistingYields(a, b, includes, j, f);
    }
  }

  lemma RelistingRefused(a: Listing, b: Listing, includes: seq<Path>)
    requires Relisting(a, b)
    ensures Files(a, includes).Some? <==> Files(b, includes).Some?
  {
    RefusedIffLinked(a, includes);
    RefusedIffLinked(b, includes);
    forall p ensures At(a, p) == Some(Symlink) <==> At(b, p) == Some(Symlink) {
      assert SameAt(a, b, p);
    }
  }

  lemma DirYields(root: Listing, includes: seq<Path>, i: nat, f: FileEntry)
    requires Proper(root) && i < |includes| && DirFiles(root, includes[i]).Some?
    ensures f in DirFiles(root, includes[i]).value <==> Yields(root, includes, i + 1, f)
  {
    var d, k := includes[i], i + 1;
    if At(root, d).Some? && At(root, d).value.Dir? {
      OneDirMembers(root, d, f);
      forall p ensures Under(root, d, p, f) <==> Places(root, includes, k, p, f) {
      }
      if Yields(root, includes, k, f) {
        var p :| Places(root, includes, k, p, f);
        assert Under(root, d, p, f);
      }
    } else {
      forall p ensures !Places(root, includes, k, p, f) {
        if Places(root, includes, k, p, f) {
          AtPrefix(root, d, p);
        }
      }
    }
  }

  lemma GroupMembers(root: Listing, includes: seq<Path>, k: nat, f: FileEntry)
    requires Proper(root) && Files(root, includes).Some? && k <= |includes|
    ensures f in Groups(root, includes)[k] <==> Yields(root, includes, k, f)
  {
    if k == 0 {
      assert Join([META]) == META;
      assert Rel([META]) == META;
      assert At(root, [META]) == Lookup(root, META);
      if f in MetaFile(root) {
        assert Places(root, includes, 0, [META], f);
      }
    } else {
      DirsRefused(root, includes);
      assert DirFiles(root, includes[k - 1]).Some?;
      DirYields(root, includes, k - 1, f);
    }
  }

  /** The first collected file of a path, and the group it comes from. */
  lemma FirstYields(root: Listing, includes: seq<Path>, path: seq<Byte>) returns (k: nat)
    requires Proper(root) && Files(root, includes).Some? && First(Files(root, includes).value, path).Some?
    ensures var f := First(Files(root, includes).value, path);
            k <= |includes| && f == First(Groups(root, includes)[k], path) && f.value.path == path &&
            Yields(root, includes, k, f.value) && !Earlier(root, includes, k, path)
  {
    var gs := Groups(root, includes);
    DirsAreGroups(root, includes);
    assert gs[1..] == DirGroups(root, includes);
    k := FlattenFirst(gs, path);
    FirstIn(gs[k], path);
    GroupMembers(root, includes, k, First(gs[k], path).value);
    forall j: nat, f | j < k && Yields(root, includes, j, f) ensures f.path != path {
      GroupMembers(root, includes, j, f);
      FirstIn(gs[j], path);
    }
  }

  lemma YieldedIsFound(root: Listing, includes: seq<Path>, k: nat, f: FileEntry)
    requires Proper(root) && Files(root, includes).Some? && Yields(root, includes, k, f)
    ensures k <= |includes| && First(Files(root, includes).value, f.path).Some?
  {
    var p :| Places(root, includes, k, p, f);
    var gs := Groups(root, includes);
    DirsAreGroups(root, includes);
    assert gs[1..] == DirGroups(root, includes);
    GroupMembers(root, includes, k, f);
    FirstIn(gs[k], f.path);
    FlattenHas(gs, k, f.path);
  }

  /** The file that is hashed for its path. */
  ghost predicate Hashed(root: Listing, includes: seq<Path>, f: FileEntry) {
    exists k: nat :: Yields(root, includes, k, f) && !Earlier(root, includes, k, f.path)
  }

  /** Where a package is unambiguous, what is collected first is told by the tree alone. */
  lemma FirstIsHashed(root: Listing, includes: seq<Path>, f: FileEntry)
    requires Proper(root) && Files(root, includes).Some? && Unambiguous(root, includes)
    ensures First(Files(root, includes).value, f.path) == Some(f) <==> Hashed(root, includes, f)
  {
    if First(Files(root, includes).value, f.path) == Some(f) {
      var k := FirstYields(root, includes, f.path);
    }
    if Hashed(root, includes, f) {
      var k: nat :| Yields(root, includes, k, f) && !Earlier(root, includes, k, f.path);
      YieldedIsFound(root, includes, k, f);
      var j := FirstYields(root, includes, f.path);
      assert j == k;
      assert Rivals(root, includes, k, f, First(Files(root, includes).value, f.path).value);
    }
  }

  /** Two unambiguous packages feed the hash the same bytes if and only if the same files are hashed. */
  lemma DigestUnambiguous(r1: Listing, d1: seq<Path>, r2: Listing, d2: seq<Path>)
    requires Proper(r1) && Proper(r2) && Files(r1, d1).Some? && Files(r2, d2).Some?
    requires Unambiguous(r1, d1) && Unambiguous(r2, d2)
    requires AllEncodable(Files(r1, d1).value) && AllEncodable(Files(r2, d2).value)
    ensures Preimage(Files(r1, d1).value) == Preimage(Files(r2, d2).value) <==>
            forall f :: Hashed(r1, d1, f) <==> Hashed(r2, d2, f)
  {
    PreimageIffFirst(Files(r1, d1).value, Files(r2, d2).value);
    if forall f :: Hashed(r1, d1, f) <==> Hashed(r2, d2, f) {
      forall path ensures First(Files(r1, d1).value, path) == First(Files(r2, d2).value, path) {
        var a, b := First(Files(r1, d1).value, path), First(Files(r2, d2).value, path);
        FirstIn(Files(r1, d1).value, path);
        FirstIn(Files(r2, d2).value, path);
        if a.Some? {
          FirstIsHashed(r1, d1, a.value);
          FirstIsHashed(r2, d2, a.value);
        } else if b.Some? {
          FirstIsHashed(r1, d1, b.value);
          FirstIsHashed(r2, d2, b.value);
        }
      }
    }
    if SameFirsts(Files(r1, d1).value, Files(r2, d2).value) {
      forall f ensures Hashed(r1, d1, f) <==> Hashed(r2, d2, f) {
        FirstIsHashed(r1, d1, f);
        FirstIsHashed(r2, d2, f);
        assert First(Files(r1, d1).value, f.path) == First(Files(r2, d2).value, f.path);
      }
    }
  }

  lemma RelistingUnambiguous(a: Listing, b: Listing, includes: seq<Path>)
    requires Relisting(a, b) && Unambiguous(a, includes)
    ensures Unambiguous(b, includes)
  {
    forall k: nat, f, g | Rivals(b, includes, k, f, g) ensures f == g {
      RelistingYields(a, b, includes, k, f);
      RelistingYields(a, b, includes, k, g);
      RelistingEarlier(a, b, includes, k, f.path);
      assert Rivals(a, includes, k, f, g);
    }
  }

  lemma RelistingEncodable(a: Listing, b: Listing, includes: seq<Path>)
    requires Relisting(a, b) && Files(a, includes).Some? && Files(b, includes).Some? && AllEncodable(Files(a, includes).value)
    ensures AllEncodable(Files(b, includes).value)
  {
    forall f | f in Files(b, includes).value ensures Encodable(f) {
      FilesAreCovered(a, includes, f);
      FilesAreCovered(b, includes, f);
      forall p ensures Covered(a, includes, p, f.bytes) <==> Covered(b, includes, p, f.bytes) {
        assert SameAt(a, b, p);
      }
    }
  }

  // ---------------------------------------------------------------- a listing that puts one file first

  function Without(l: Listing, n: Name): Listing {
    match l
    case Empty => Empty
    case Item(m, node, rest) => if m == n then Without(rest, n) else Item(m, node, Without(rest, n))
  }

  lemma {:induction false} WithoutLookup(l: Listing, n: Name, m: Name)
    ensures Lookup(Without(l, n), m) == if m == n then None else Lookup(l, m)
  {
    if l.Item? {
      WithoutLookup(l.rest, n, m);
    }
  }

  lemma {:induction false} WithoutProper(l: Listing, n: Name)
    requires Proper(l)
    ensures Proper(Without(l, n))
  {
    if l.Item? {
      WithoutProper(l.rest, n);
      WithoutLookup(l.rest, n, l.name);
    }
  }

  /** The same tree, with the branch of `p` listed first in every directory on its way. */
  function PutFirst(l: Listing, p: Path): Listing
    requires p != [] && At(l, p).Some?
    decreases |p|
  {
    var node := Lookup(l, p[0]).value;
    Item(p[0], if |p| == 1 then node else Dir(PutFirst(node.list, p[1..])), Without(l, p[0]))
  }

  lemma {:induction false} PutFirstProper(l: Listing, p: Path)
    requires Proper(l) && p != [] && At(l, p).Some?
    ensures Proper(PutFirst(l, p))
    decreases |p|
  {
    var node := Lookup(l, p[0]).value;
    WithoutProper(l, p[0]);
    WithoutLookup(l, p[0], p[0]);
    if node.Dir? {
      LookupProper(l, p[0]);
    }
    if |p| > 1 {
      PutFirstProper(node.list, p[1..]);
    }
  }

  lemma {:induction false} PutFirstSame(l: Listing, p: Path, q: Path)
    requires p != [] && At(l, p).Some?
    ensures SameAt(l, PutFirst(l, p), q)
    decreases |p|
  {
    if q != [] {
      WithoutLookup(l, p[0], q[0]);
      if q[0] == p[0] && |p| > 1 && |q| > 1 {
        PutFirstSame(Lookup(l, p[0]).value.list, p[1..], q[1..]);
      }
    }
  }

  lemma PutFirstRelists(l: Listing, p: Path)
    requires Proper(l) && p != [] && At(l, p).Some?
    ensures Relisting(l, PutFirst(l, p))
  {
    PutFirstProper(l, p);
    forall q ensures SameAt(l, PutFirst(l, p), q) {
      PutFirstSame(l, p, q);
    }
  }

  lemma {:induction false} PutFirstBelow(l: Listing, d: Path, q: Path)
    requires q != [] && At(l, d).Some? && At(l, d).value.Dir? && At(l, d + q).Some? && At(At(l, d).value.list, q).Some?
    ensures At(PutFirst(l, d + q), d) == Some(Dir(PutFirst(At(l, d).value.list, q)))
    decreases |d|
  {
    if d == [] {
      assert d + q == q;
    } else {
      assert (d + q)[0] == d[0] && (d + q)[1..] == d[1..] + q;
      if |d| == 1 {
        assert d[1..] + q == q;
      } else {
        PutFirstBelow(Lookup(l, d[0]).value.list, d[1..], q);
      }
    }
  }

  lemma {:induction false} CollectPutFirst(dir: Path, l: Listing, q: Path, bytes: seq<Byte>)
    requires FileAt(l, q, bytes) && Collect(dir, PutFirst(l, q)).Some?
    ensures Collect(dir, PutFirst(l, q)).value != [] && Collect(dir, PutFirst(l, q)).value[0] == FileEntry(Rel(dir + q), bytes)
    decreases |q|
  {
    if |q| == 1 {
      assert q == [q[0]];
    } else {
      CollectPutFirst(dir + [q[0]], Lookup(l, q[0]).value.list, q[1..], bytes);
      assert dir + [q[0]] + q[1..] == dir + q;
    }
  }

  /** Any file of the first group that has its path can be the first one collected. */
  lemma BringFirst(root: Listing, includes: seq<Path>, k: nat, f: FileEntry) returns (r: Listing)
    requires Proper(root) && Files(root, includes).Some? && Yields(root, includes, k, f) && !Earlier(root, includes, k, f.path)
    ensures Relisting(root, r) && Files(r, includes).Some? && First(Files(r, includes).value, f.path) == Some(f)
  {
    var p :| Places(root, includes, k, p, f);
    r := PutFirst(root, p);
    PutFirstRelists(root, p);
    RelistingRefused(root, r, includes);
    RelistingYields(root, r, includes, k, f);
    RelistingEarlier(root, r, includes, k, f.path);
    YieldedIsFound(r, includes, k, f);
    var j := FirstYields(r, includes, f.path);
    assert j == k;
    GroupMembers(r, includes, k, f);
    if k > 0 {
      FirstOfGroup(root, includes, k - 1, p, f);
    }
  }

  lemma FirstOfGroup(root: Listing, includes: seq<Path>, i: nat, p: Path, f: FileEntry)
    requires i < |includes| && Places(root, includes, i + 1, p, f) && Files(PutFirst(root, p), includes).Some?
    requires Proper(PutFirst(root, p))
    ensures First(Groups(PutFirst(root, p), includes)[i + 1], f.path) == Some(f)
  {
    var r, d := PutFirst(root, p), includes[i];
    var q := p[|d|..];
    assert p == d + q;
    AtPrefix(root, d, p);
    AtBelow(root, d, q);
    PutFirstBelow(root, d, q);
    DirsRefused(r, includes);
    assert DirFiles(r, d).Some?;
    CollectPutFirst(d, At(root, d).value.list, q, f.bytes);
  }

  /** Every order in which the directories may be listed feeds the hash the same bytes. */
  ghost predicate OrderIndependent(root: Listing, includes: seq<Path>) {
    Files(root, includes).Some? && forall r :: Relisting(root, r) ==>
      Files(r, includes).Some? && Preimage(Files(r, includes).value) == Preimage(Files(root, includes).value)
  }

  /**
   The digest does not depend on the order in which directories are listed exactly if the package
   is unambiguous: a file that shares its relative path with another may differ from it only where
   `meta.toml` or an earlier included directory has that path too.
   */
  lemma OrderIndependentIffUnambiguous(root: Listing, includes: seq<Path>)
    requires Proper(root) && Files(root, includes).Some? && AllEncodable(Files(root, includes).value)
    ensures OrderIndependent(root, includes) <==> Unambiguous(root, includes)
  {
    if Unambiguous(root, includes) {
      forall r | Relisting(root, r)
        ensures Files(r, includes).Some? && Preimage(Files(r, includes).value) == Preimage(Files(root, includes).value)
      {
        RelistingRefused(root, r, includes);
        RelistingEncodable(root, r, includes);
        RelistingUnambiguous(root, r, includes);
        forall f ensures Hashed(root, includes, f) <==> Hashed(r, includes, f) {
          forall k: nat ensures (Yields(root, includes, k, f) <==> Yields(r, includes, k, f)) &&
                                (Earlier(root, includes, k, f.path) <==> Earlier(r, includes, k, f.path)) {
            RelistingYields(root, r, includes, k, f);
            RelistingEarlier(root, r, includes, k, f.path);
          }
        }
        DigestUnambiguous(root, includes, r, includes);
      }
    }
    if OrderIndependent(root, includes) {
      forall k: nat, f, g | Rivals(root, includes, k, f, g) ensures f == g {
        var r := BringFirst(root, includes, k, f);
        var t := BringFirst(root, includes, k, g);
        RelistingEncodable(root, r, includes);
        RelistingEncodable(root, t, includes);
        PreimageIffFirst(Files(r, includes).value, Files(root, includes).value);
        PreimageIffFirst(Files(t, includes).value, Files(root, includes).value);
        assert First(Files(r, includes).value, f.path) == First(Files(root, includes).value, f.path);
        assert First(Files(t, includes).value, f.path) == First(Files(root, includes).value, f.path);
      }
    }
  }

  /** A consistent package is unambiguous. */
  lemma ConsistentUnambiguous(root: Listing, includes: seq<Path>)
    requires Proper(root) && Files(root, includes).Some? && Consistent(Files(root, includes).value)
    ensures Unambiguous(root, includes)
  {
    forall k: nat, f, g | Rivals(root, includes, k, f, g) ensures f == g {
      var p :| Places(root, includes, k, p, f);
      var q :| Places(root, includes, k, q, g);
      assert k > 0 ==> includes[k - 1] in includes;
      assert Covered(root, includes, p, f.bytes) && Covered(root, includes, q, g.bytes);
      FilesAreCovered(root, includes, f);
      FilesAreCovered(root, includes, g);
    }
  }

  // ---------------------------------------------------------------- a collision

  /** "src" */
  const SRC: Name := [115, 114, 99]
  const FLAT: Name := [97, BACKSLASH, 98]
  const OUTER: Name := [97]
  const INNER: Name := [98]
  const SHARED: seq<Byte> := [115, 114, 99, SLASH, 97, SLASH, 98]

  /** In `src`, a file named `a\b` beside a directory `a` with a file `b`. */
  function FlatFirst(x: seq<Byte>, y: seq<Byte>): Listing {
    Item(FLAT, File(x), Item(OUTER, Dir(Item(INNER, File(y), Empty)), Empty))
  }

  function NestedFirst(x: seq<Byte>, y: seq<Byte>): Listing {
    Item(OUTER, Dir(Item(INNER, File(y), Empty)), Item(FLAT, File(x), Empty))
  }

  function Package(src: Listing): Listing {
    Item(SRC, Dir(src), Empty)
  }

  lemma CollisionListings(x: seq<Byte>, y: seq<Byte>)
    ensures Collect([SRC], FlatFirst(x, y)) == Some([FileEntry(SHARED, x)] + [FileEntry(SHARED, y)])
    ensures Collect([SRC], NestedFirst(x, y)) == Some([FileEntry(SHARED, y)] + [FileEntry(SHARED, x)])
  {
    var f, g := FileEntry(SHARED, x), FileEntry(SHARED, y);
    var sub := Item(INNER, File(y), Empty);
    var p: Path := [SRC] + [FLAT];
    assert p[1..] == [FLAT];
    assert Join(p) == SRC + [SLASH] + FLAT;
    assert Rel(p) == SHARED;
    var q: Path := [SRC] + [OUTER] + [INNER];
    assert q[1..] == [OUTER, INNER] && [OUTER, INNER][1..] == [INNER];
    assert Join([OUTER, INNER]) == OUTER + [SLASH] + INNER;
    assert Join(q) == SRC + [SLASH] + (OUTER + [SLASH] + INNER);
    assert Rel(q) == SHARED;
    assert [g] + [] == [g] && [f] + [] == [f];
    assert Here([SRC] + [OUTER], INNER, File(y)) == Some([g]);
    assert Collect([SRC] + [OUTER], sub) == Some([g]);
    assert Here([SRC], OUTER, Dir(sub)) == Some([g]);
    assert Here([SRC], FLAT, File(x)) == Some([f]);
    assert Collect([SRC], Item(OUTER, Dir(sub), Empty)) == Some([g]);
    assert Collect([SRC], Item(FLAT, File(x), Empty)) == Some([f]);
  }

  lemma PackageFiles(src: Listing)
    requires Collect([SRC], src).Some?
    ensures Files(Package(src), [[SRC]]) == Collect([SRC], src)
  {
    var root := Package(src);
    assert |SRC| != |META|;
    assert Lookup(root, META) == Lookup(Empty, META) == None;
    assert MetaFile(root) == [];
    assert Lookup(root, SRC) == Some(Dir(src));
    assert At(root, [SRC]) == Some(Dir(src));
    assert DirFiles(root, [SRC]) == Collect([SRC], src);
    var includes: seq<Path> := [[SRC]];
    assert includes[1..] == [];
    var c := Collect([SRC], src).value;
    assert c + [] == c && [] + c == c;
    assert CollectDirs(root, includes) == Some(c + []);
  }

  lemma CollisionRelisted(x: seq<Byte>, y: seq<Byte>)
    ensures Relisting(Package(FlatFirst(x, y)), Package(NestedFirst(x, y)))
  {
    var root, flat := Package(FlatFirst(x, y)), FlatFirst(x, y);
    var p: Path := [SRC, OUTER, INNER];
    var q: Path := [OUTER, INNER];
    assert p[1..] == q && q[1..] == [INNER];
    var sub := Item(INNER, File(y), Empty);
    var last := Item(OUTER, Dir(sub), Empty);
    assert |FLAT| != |OUTER|;
    assert Lookup(sub, INNER) == Some(File(y)) && Without(sub, INNER) == Empty;
    assert Lookup(last, OUTER) == Some(Dir(sub)) && Without(last, OUTER) == Empty;
    assert Lookup(flat, OUTER) == Lookup(last, OUTER) && Without(flat, OUTER) == Item(FLAT, File(x), Empty);
    assert Lookup(root, SRC) == Some(Dir(flat)) && Without(root, SRC) == Empty;
    assert At(sub, [INNER]) == Some(File(y));
    assert At(flat, q) == At(sub, q[1..]);
    assert At(root, p) == At(flat, p[1..]);
    assert PutFirst(sub, [INNER]) == sub;
    assert PutFirst(flat, q) == Item(OUTER, Dir(PutFirst(sub, q[1..])), Without(flat, OUTER));
    assert PutFirst(root, p) == Item(SRC, Dir(PutFirst(flat, p[1..])), Empty);
    assert Lookup(last, FLAT) == Lookup(Empty, FLAT) == None;
    assert Proper(sub) && Proper(last);
    assert Proper(flat);
    PutFirstRelists(root, p);
  }

  /**
   A name with a backslash can collide with a nested file of the same included directory: both get
   the same relative path, and the listing order decides which of the two is hashed.
   */
  lemma BackslashCollides(x: seq<Byte>, y: seq<Byte>)
    requires x != y && |x| < 0x1_0000_0000_0000_0000 && |y| < 0x1_0000_0000_0000_0000
    ensures var r1, r2 := Package(FlatFirst(x, y)), Package(NestedFirst(x, y));
            var a, b := Files(r1, [[SRC]]), Files(r2, [[SRC]]);
            Relisting(r1, r2) && a.Some? && b.Some? && Preimage(a.value) != Preimage(b.value)
  {
    var f, g := FileEntry(SHARED, x), FileEntry(SHARED, y);
    CollisionListings(x, y);
    CollisionRelisted(x, y);
    PackageFiles(FlatFirst(x, y));
    PackageFiles(NestedFirst(x, y));
    TwoFiles(f, g);
    TwoFiles(g, f);
    if Encode(f) == Encode(g) {
      DecodeEncode(f, []);
      DecodeEncode(g, []);
    }
  }

  lemma TwoFiles(f: FileEntry, g: FileEntry)
    requires f.path == g.path
    ensures Preimage([f] + [g]) == Encode(f)
  {
    LessTotal(f.path, g.path);
    assert ([f] + [g])[1..] == [g];
    assert Sort([g]) == [g] + [];
    assert Sort([f] + [g]) == [f] + [g];
    assert Dedup([g]) == [g];
    assert Canonical([f] + [g]) == [f];
    assert EncodeAll([f]) == Encode(f) + [];
  }

  // ---------------------------------------------------------------- the program

  /** The vector that `collect_tree` pushes into. */
  class FileVec {
    var items: seq<FileEntry>

    constructor ()
      ensures items == []
    {
      items := [];
    }
  }

  ghost predicate Splits(whole: Option<seq<FileEntry>>, done: seq<FileEntry>, rest: Option<seq<FileEntry>>) {
    whole == if rest.Some? then Some(done + rest.value) else None
  }

  lemma SplitStep(whole: Option<seq<FileEntry>>, done: seq<FileEntry>, here: Option<seq<FileEntry>>, later: Option<seq<FileEntry>>)
    requires Splits(whole, done, if here.Some? && later.Some? then Some(here.value + later.value) else None)
    ensures if here.Some? then Splits(whole, done + here.value, later) else whole == None
  {
    if here.Some? && later.Some? {
      assert done + (here.value + later.value) == done + here.value + later.value;
    }
  }

  method CollectTree(dir: Path, l: Listing, out: FileVec) returns (ok: bool)
    modifies out
    ensures ok == Collect(dir, l).Some?
    ensures ok ==> out.items == old(out.items) + Collect(dir, l).value
    decreases l
  {
    var cur := l;
    ghost var done: seq<FileEntry> := [];
    assert Collect(dir, l).Some? ==> [] + Collect(dir, l).value == Collect(dir, l).value;
    while cur.Item?
      invariant cur == l || cur < l
      invariant out.items == old(out.items) + done
      invariant Splits(Collect(dir, l), done, Collect(dir, cur))
      decreases cur
    {
      var path := dir + [cur.name];
      ghost var here := Here(dir, cur.name, cur.node);
      SplitStep(Collect(dir, l), done, here, Collect(dir, cur.rest));
      match cur.node {
        case Symlink =>
          return false;
        case Dir(sub) =>
          var fine := CollectTree(path, sub, out);
          if !fine {
            return false;
          }
        case File(bytes) =>
          out.items := out.items + [FileEntry(Rel(path), bytes)];
        case Special =>
      }
      done := done + here.value;
      cur := cur.rest;
    }
    return true;
  }

  /** `d` with `x` after it, unless its last entry has the path of `x`. */
  function Push(d: seq<FileEntry>, x: FileEntry): seq<FileEntry> {
    if d != [] && d[|d| - 1].path == x.path then d else d + [x]
  }

  lemma PushLead(a: FileEntry, r: seq<FileEntry>, x: FileEntry)
    ensures Push(Lead(a, r), x) == Lead(a, Push(r, x))
  {
    if r != [] && Push(r, x) == r + [x] {
      assert [a] + (r + [x])[1..] == [a] + r[1..] + [x];
      assert [a] + (r + [x]) == [a] + r + [x];
    }
  }

  lemma {:induction false} DedupSnoc(xs: seq<FileEntry>, x: FileEntry)
    ensures Dedup(xs + [x]) == Push(Dedup(xs), x)
  {
    if xs == [] {
      assert xs + [x] == [x];
    } else {
      assert (xs + [x])[0] == xs[0] && (xs + [x])[1..] == xs[1..] + [x];
      DedupSnoc(xs[1..], x);
      PushLead(xs[0], Dedup(xs[1..]), x);
    }
  }

  /** `files.dedup_by`: drop every entry whose path is that of the last one kept. */
  method DedupByPath(xs: seq<FileEntry>) returns (r: seq<FileEntry>)
    ensures r == Dedup(xs)
  {
    r := [];
    for i := 0 to |xs|
      invariant r == Dedup(xs[..i])
    {
      DedupSnoc(xs[..i], xs[i]);
      assert xs[..i + 1] == xs[..i] + [xs[i]];
      if r == [] || r[|r| - 1].path != xs[i].path {
        r := r + [xs[i]];
      }
    }
    assert xs[..|xs|] == xs;
  }

  lemma {:induction false} EncodeAllSnoc(xs: seq<FileEntry>, x: FileEntry)
    ensures EncodeAll(xs + [x]) == EncodeAll(xs) + Encode(x)
  {
    if xs == [] {
      assert xs + [x] == [x];
      assert EncodeAll([x]) == Encode(x) + [];
      assert [] + Encode(x) == Encode(x);
    } else {
      assert (xs + [x])[0] == xs[0] && (xs + [x])[1..] == xs[1..] + [x];
      EncodeAllSnoc(xs[1..], x);
      assert Encode(xs[0]) + (EncodeAll(xs[1..]) + Encode(x)) == Encode(xs[0]) + EncodeAll(xs[1..]) + Encode(x);
    }
  }

  /** The hasher: all the bytes it was given, in order. */
  class Hasher {
    var fed: seq<Byte>

    constructor ()
      ensures fed == []
    {
      fed := [];
    }

    method Update(bytes: seq<Byte>)
      modifies this
      ensures fed == old(fed) + bytes
    {
      fed := fed + bytes;
    }
  }

  /** Five updates: path, NUL, kind, length, contents. */
  method Feed(h: Hasher, f: FileEntry)
    modifies h
    ensures h.fed == old(h.fed) + Encode(f)
  {
    ghost var fed := h.fed;
    h.Update(f.path);
    h.Update([0]);
    h.Update([LETTER_F]);
    var length := LittleEndian(|f.bytes|, 8);
    h.Update(length);
    h.Update(f.bytes);
    assert fed + f.path + [0] + [LETTER_F] + length + f.bytes == fed + (f.path + [0] + [LETTER_F] + length + f.bytes);
  }

  method CollectAll(root: Listing, includes: seq<Path>, out: FileVec) returns (ok: bool)
    modifies out
    ensures ok == CollectDirs(root, includes).Some?
    ensures ok ==> out.items == old(out.items) + CollectDirs(root, includes).value
  {
    ghost var done: seq<FileEntry> := [];
    assert CollectDirs(root, includes).Some? ==> [] + CollectDirs(root, includes).value == CollectDirs(root, includes).value;
    assert includes[0..] == includes;
    for i := 0 to |includes|
      invariant out.items == old(out.items) + done
      invariant Splits(CollectDirs(root, includes), done, CollectDirs(root, includes[i..]))
    {
      assert includes[i..][1..] == includes[i + 1..];
      var node := At(root, includes[i]);
      ghost var here := DirFiles(root, includes[i]);
      SplitStep(CollectDirs(root, includes), done, here, CollectDirs(root, includes[i + 1..]));
      if node.Some? && node.value.Dir? {
        var fine := CollectTree(includes[i], node.value.list, out);
        if !fine {
          return false;
        }
      }
      done := done + here.value;
    }
    return true;
  }

  /** `compute_package_digest` up to the hash: the bytes it was fed, or an error. */
  method ComputePackageDigest(root: Listing, includes: seq<Path>) returns (r: Option<seq<Byte>>)
    ensures r.Some? == Files(root, includes).Some?
    ensures r.Some? ==> r.value == Preimage(Files(root, includes).value)
  {
    var files := new FileVec();
    var meta := Lookup(root, META);
    if meta.Some? && meta.value.File? {
      files.items := files.items + [FileEntry(META, meta.value.bytes)];
    }
    assert files.items == MetaFile(root);
    var fine := CollectAll(root, includes, files);
    if !fine {
      return None;
    }
    var sorted := Sort(files.items);
    var hashed := DedupByPath(sorted);
    var hasher := new Hasher();
    for i := 0 to |hashed|
      invariant hasher.fed == EncodeAll(hashed[..i])
      invariant fresh(hasher)
    {
      Feed(hasher, hashed[i]);
      EncodeAllSnoc(hashed[..i], hashed[i]);
      assert hashed[..i + 1] == hashed[..i] + [hashed[i]];
    }
    assert hashed[..|hashed|] == hashed;
    return Some(hasher.fed);
  }
}
