/** The change signature of a .htaccess chain: exactly when it tells two states of the files apart. */
module HtSignature {
  import opened Text
  import opened HtPath
  import opened HtConfig

  datatype Stat = Stat(size: int, mtime: int)

  /** What os.Stat says of each path. */
  type FileSystem = string -> Option<Stat>

  const NAME := ".htaccess"

  function FileIn(dir: string): string {
    if dir == "/" then "/" + NAME else dir + ("/" + NAME)
  }

  /** Size and time as a signature shows them. */
  function Numbers(s: Stat): string {
    ":" + (IntText(s.size) + (":" + (IntText(s.mtime) + ";")))
  }

  /** The part of the signature one file gives. */
  function EntryText(e: (string, Stat)): string {
    e.0 + Numbers(e.1)
  }

  function Signature(list: seq<(string, Stat)>): string {
    if list == [] then "" else EntryText(list[0]) + Signature(list[1..])
  }

  /** The files that exist in these directories, with their size and time. */
  function Present(fs: FileSystem, dirs: seq<string>): seq<(string, Stat)> {
    if dirs == [] then []
    else
      var f := FileIn(dirs[0]);
      (if fs(f).Some? then [(f, fs(f).value)] else []) + Present(fs, dirs[1..])
  }

  // ---------------------------------------------------------------- cutting text

  lemma AtCut(a: string, c: char, x: string)
    ensures (a + ([c] + x))[|a|] == c
  {
  }

  lemma InFront(b: string, rest: string, n: int)
    ensures 0 <= n < |b| ==> (b + rest)[n] in b
  {
  }

  lemma NotShorter(a: string, b: string, c: char, x: string, y: string)
    requires a + ([c] + x) == b + ([c] + y) && c !in b
    ensures |a| >= |b|
  {
    AtCut(a, c, x);
    InFront(b, [c] + y, |a|);
  }

  lemma CutAt(a: string, b: string, c: char, x: string, y: string)
    requires a + ([c] + x) == b + ([c] + y) && c !in a && c !in b
    ensures a == b && x == y
  {
    NotShorter(a, b, c, x, y);
    NotShorter(b, a, c, y, x);
    CutSame(a, b, [c] + x, [c] + y);
    assert ([c] + x)[1..] == x && ([c] + y)[1..] == y;
  }

  lemma CutSame(a: string, b: string, x: string, y: string)
    requires a + x == b + y && |a| == |b|
    ensures a == b && x == y
  {
    assert a == (a + x)[..|a|] && b == (b + y)[..|b|];
    assert x == (a + x)[|a|..] && y == (b + y)[|b|..];
  }

  lemma NumbersNest(a: string, b: string, x: string)
    ensures (":" + (a + (":" + (b + ";")))) + x == [':'] + (a + ([':'] + (b + ([';'] + x))))
  {
  }

  /** Equal numbers come from equal sizes and times, whatever follows. */
  lemma SameNumbers(s: Stat, t: Stat, x: string, y: string)
    requires Numbers(s) + x == Numbers(t) + y
    ensures s == t && x == y
  {
    var s1, s2, t1, t2 := IntText(s.size), IntText(s.mtime), IntText(t.size), IntText(t.mtime);
    IntTextIs(s.size, t.size);
    IntTextIs(t.size, s.size);
    IntTextIs(s.mtime, t.mtime);
    IntTextIs(t.mtime, s.mtime);
    NumbersNest(s1, s2, x);
    NumbersNest(t1, t2, y);
    CutSame([':'], [':'], s1 + ([':'] + (s2 + ([';'] + x))), t1 + ([':'] + (t2 + ([';'] + y))));
    CutAt(s1, t1, ':', s2 + ([';'] + x), t2 + ([';'] + y));
    CutAt(s2, t2, ';', x, y);
  }

  lemma NumbersPlain(s: Stat)
    ensures '/' !in Numbers(s) && Numbers(s) != "" && Numbers(s)[0] == ':'
  {
    IntTextIs(s.size, 0);
    IntTextIs(s.mtime, 0);
  }

  // ---------------------------------------------------------------- files of a chain

  /** The .htaccess file of the directory with these components. */
  function FileOf(names: seq<string>): string {
    Base(names) + ("/" + NAME)
  }

  lemma FileOfNames(names: seq<string>)
    requires AllProper(names)
    ensures FileIn(Render(names)) == FileOf(names)
  {
    RenderIsBase(names);
    if names != [] {
      BaseNonEmpty(names);
    }
  }

  lemma {:induction false} BaseConcat(a: seq<string>, b: seq<string>)
    ensures Base(a + b) == Base(a) + Base(b)
  {
    if b == [] {
      assert a + b == a && Base(a) + "" == Base(a);
    } else {
      assert (a + b)[..|a + b| - 1] == a + b[..|b| - 1];
      BaseConcat(a, b[..|b| - 1]);
      Assoc(Base(a), Base(b[..|b| - 1]), "/" + b[|b| - 1]);
    }
  }

  lemma BaseOne(name: string)
    ensures Base([name]) == "/" + name
  {
    assert [name][..0] == [] && Base([]) == "";
  }

  lemma BaseStarts(names: seq<string>)
    requires names != []
    ensures Base(names) == "/" + (names[0] + Base(names[1..]))
  {
    assert [names[0]] + names[1..] == names;
    BaseConcat([names[0]], names[1..]);
    BaseOne(names[0]);
  }

  /** The files of the chain, the p-th that of root + rel[..p]. */
  ghost function FilesOf(root: seq<string>, rel: seq<string>): (r: seq<string>)
    ensures |r| == |rel| + 1
  {
    (if rel == [] then [] else FilesOf(root, rel[..|rel| - 1])) + [FileOf(root + rel)]
  }

  lemma {:induction false} FileAt(root: seq<string>, rel: seq<string>, p: nat)
    requires p <= |rel|
    ensures FilesOf(root, rel)[p] == FileOf(root + rel[..p])
  {
    if p < |rel| {
      FileAt(root, rel[..|rel| - 1], p);
      assert rel[..|rel| - 1][..p] == rel[..p];
    } else {
      assert rel[..p] == rel;
    }
  }

  /** Those of the files 0 .. n that are there, from the n-th down. */
  ghost function Upto(fs: FileSystem, files: seq<string>, n: nat): seq<(string, Stat)>
    requires n < |files|
    decreases n, 1
  {
    (if fs(files[n]).Some? then [(files[n], fs(files[n]).value)] else []) + Above(fs, files, n)
  }

  ghost function Above(fs: FileSystem, files: seq<string>, n: nat): seq<(string, Stat)>
    requires n < |files|
    decreases n, 0
  {
    if n == 0 then [] else Upto(fs, files, n - 1)
  }

  lemma {:induction false} UptoFront(fs: FileSystem, files: seq<string>, last: string, n: nat)
    requires n < |files|
    ensures Upto(fs, files + [last], n) == Upto(fs, files, n)
  {
    if n > 0 {
      UptoFront(fs, files, last, n - 1);
    }
  }

  lemma SubProper(names: seq<string>, i: nat, j: nat)
    requires i <= j <= |names| && AllProper(names)
    ensures AllProper(names[i..j])
  {
    forall n | n in names[i..j] ensures Proper(n) {
      assert n in names;
    }
  }

  lemma {:induction false} PresentIs(fs: FileSystem, root: seq<string>, rel: seq<string>)
    requires AllProper(root) && AllProper(rel)
    ensures Present(fs, Chain(root, rel)) == Upto(fs, FilesOf(root, rel), |rel|)
  {
    FileOfNames(root + rel);
    var chain := Chain(root, rel);
    if rel == [] {
      assert chain[1..] == [];
    } else {
      var front := rel[..|rel| - 1];
      assert chain[1..] == Chain(root, front);
      SubProper(rel, 0, |rel| - 1);
      PresentIs(fs, root, front);
      UptoFront(fs, FilesOf(root, front), FileOf(root + rel), |front|);
    }
  }

  /** The directories are those a request walks. */
  ghost predicate Walked(dirs: seq<string>, root: seq<string>, rel: seq<string>) {
    AllProper(root) && AllProper(rel) && dirs == Walk(Render(root), Render(root + rel))
  }

  lemma PresentOnWalk(fs: FileSystem, dirs: seq<string>, root: seq<string>, rel: seq<string>)
    requires Walked(dirs, root, rel)
    ensures Present(fs, dirs) == Upto(fs, FilesOf(root, rel), |rel|)
  {
    WalkVisits(root, rel);
    PresentIs(fs, root, rel);
  }

  ghost predicate Rooted(files: seq<string>) {
    forall p :: 0 <= p < |files| ==> "/" <= files[p]
  }

  lemma ShownNext(fs: FileSystem, files: seq<string>, n: nat)
    requires n < |files|
    ensures var above := Signature(Above(fs, files, n));
            Signature(Upto(fs, files, n)) ==
            if fs(files[n]).Some? then files[n] + (Numbers(fs(files[n]).value) + above) else above
  {
    var f, above := files[n], Above(fs, files, n);
    if fs(f).Some? {
      SignatureCons((f, fs(f).value), above);
    } else {
      assert [] + above == above;
    }
  }

  lemma SignatureCons(e: (string, Stat), rest: seq<(string, Stat)>)
    ensures Signature([e] + rest) == e.0 + (Numbers(e.1) + Signature(rest))
  {
    assert ([e] + rest)[1..] == rest;
    Assoc(e.0, Numbers(e.1), Signature(rest));
  }

  /** The deepest file that is there comes first. */
  lemma {:induction false} DeepestUpto(fs: FileSystem, files: seq<string>, n: nat) returns (m: nat)
    requires n < |files| && Upto(fs, files, n) != []
    ensures m <= n && fs(files[m]).Some? && (fs(files[n]).None? ==> m < n)
    ensures Upto(fs, files, n) == Upto(fs, files, m)
  {
    if fs(files[n]).Some? {
      m := n;
    } else {
      m := DeepestUpto(fs, files, n - 1);
    }
  }

  lemma Deepest(fs: FileSystem, files: seq<string>, n: nat) returns (m: nat)
    requires n < |files| && Signature(Upto(fs, files, n)) != ""
    ensures m <= n && fs(files[m]).Some? && (fs(files[n]).None? ==> m < n)
    ensures Signature(Upto(fs, files, n)) ==
            files[m] + (Numbers(fs(files[m]).value) + Signature(Above(fs, files, m)))
  {
    m := DeepestUpto(fs, files, n);
    ShownNext(fs, files, m);
  }

  lemma ShownStarts(fs: FileSystem, files: seq<string>, n: nat)
    requires n < |files| && Rooted(files)
    ensures var above := Signature(Above(fs, files, n)); above != "" ==> n > 0 && above[0] == '/'
  {
    if Signature(Above(fs, files, n)) != "" {
      var m := Deepest(fs, files, n - 1);
      assert "/" <= files[m];
    }
  }

  lemma RootedFiles(root: seq<string>, rel: seq<string>)
    ensures Rooted(FilesOf(root, rel))
  {
    forall p | 0 <= p <= |rel| ensures "/" <= FilesOf(root, rel)[p] {
      FileAt(root, rel, p);
      FileStarts(root + rel[..p]);
    }
  }

  lemma FileStarts(names: seq<string>)
    ensures FileOf(names)[0] == '/' && (Base(names) != "" ==> Base(names)[0] == '/')
  {
    if names != [] {
      BaseStarts(names);
    }
  }

  // ---------------------------------------------------------------- when signatures agree

  const RESERVED := ".htaccess:"

  /** No name starts like an entry of a signature. */
  ghost predicate Unreserved(names: seq<string>) {
    forall n :: n in names ==> !(RESERVED <= n)
  }

  /** The name of a directory that looks like the entry of a file. */
  function EntryName(s: Stat): string {
    NAME + Numbers(s)
  }

  lemma EntryNameProper(s: Stat)
    ensures Proper(EntryName(s)) && RESERVED <= EntryName(s)
  {
    NumbersPlain(s);
    assert '/' !in NAME && |NAME| == 9;
    assert EntryName(s)[..10] == RESERVED;
  }

  /**
   * Below the request's i-th directory stands one named like an entry, and below that the whole
   * path of a directory above the i-th again.
   */
  predicate ClashAt(root: seq<string>, rel: seq<string>, q: nat, i: nat, s: Stat) {
    && q < i < |rel| && rel[i] == EntryName(s)
    && root + rel[..q] <= rel[i + 1..]
  }

  ghost predicate Clashes(root: seq<string>, rel: seq<string>) {
    exists q: nat, i: nat, s :: ClashAt(root, rel, q, i, s)
  }

  /** A deeper file whose entry starts like that of a higher one: the next name is an entry. */
  lemma NextIsEntry(high: seq<string>, name: string, low: seq<string>, s: Stat, z: string, y: string)
    requires Proper(name) && (y != "" ==> y[0] == '/')
    requires FileOf(high + [name] + low) + z == FileOf(high) + (Numbers(s) + y)
    ensures name == EntryName(s) && FileOf(low) + z == y
  {
    BaseConcat(high + [name], low);
    BaseConcat(high, [name]);
    BaseOne(name);
    FileStarts(low);
    EntryNameProper(s);
    CutEntry(Base(high), name, Base(low), Numbers(s), z, y);
    var long := FileOf(low) + z;
    assert long[0] == '/' && long == ['/'] + long[1..];
    MustGoOn(name, EntryName(s), long, y);
    assert y == ['/'] + y[1..];
    CutAt(name, EntryName(s), '/', long[1..], y[1..]);
  }

  lemma MustGoOn(name: string, entry: string, long: string, y: string)
    requires name + long == entry + y && '/' in long && '/' !in entry
    ensures y != ""
  {
    var i :| 0 <= i < |long| && long[i] == '/';
    assert (name + long)[|name| + i] == '/';
    assert y == "" ==> entry + y == entry;
  }

  lemma CutEntry(a: string, name: string, low: string, nums: string, z: string, y: string)
    requires (((a + ("/" + name)) + low) + ("/" + NAME)) + z == (a + ("/" + NAME)) + (nums + y)
    ensures name + ((low + ("/" + NAME)) + z) == (NAME + nums) + y
  {
    Assoc(a, "/" + name, low);
    Assoc(a, ("/" + name) + low, "/" + NAME);
    Assoc(a, (("/" + name) + low) + ("/" + NAME), z);
    Assoc(a, "/" + NAME, nums + y);
    CutSame(a, a, ((("/" + name) + low) + ("/" + NAME)) + z, ("/" + NAME) + (nums + y));
    CutSlash(name, low, NAME, nums, z, y);
  }

  lemma CutSlash(name: string, low: string, file: string, nums: string, z: string, y: string)
    requires ((("/" + name) + low) + ("/" + file)) + z == ("/" + file) + (nums + y)
    ensures name + ((low + ("/" + file)) + z) == (file + nums) + y
  {
    assert ((("/" + name) + low) + ("/" + file)) + z == ['/'] + (name + ((low + ("/" + file)) + z));
    assert ("/" + file) + (nums + y) == ['/'] + ((file + nums) + y);
    CutSame(['/'], ['/'], name + ((low + ("/" + file)) + z), (file + nums) + y);
  }

  /** Two files that start the same text, each before a colon: one directory is above the other. */
  lemma {:induction false} OneAbove(a: seq<string>, b: seq<string>, x: string, y: string)
    requires AllProper(a) && AllProper(b)
    requires FileOf(a) + ([':'] + x) == FileOf(b) + ([':'] + y)
    ensures a <= b || b <= a
    ensures a < b ==> RESERVED <= b[|a|]
    ensures b < a ==> RESERVED <= a[|b|]
  {
    if a == [] && b != [] {
      StartsReserved(b, x, y);
    } else if b == [] && a != [] {
      StartsReserved(a, y, x);
    } else if a != [] {
      BaseStarts(a);
      BaseStarts(b);
      assert Proper(a[0]) && Proper(b[0]);
      FileStarts(a[1..]);
      FileStarts(b[1..]);
      PopName(a[0], Base(a[1..]), b[0], Base(b[1..]), [':'] + x, [':'] + y);
      OneAbove(a[1..], b[1..], x, y);
      assert a == [a[0]] + a[1..] && b == [b[0]] + b[1..];
    }
  }

  lemma StartsReserved(b: seq<string>, x: string, y: string)
    requires b != [] && Proper(b[0]) && FileOf([]) + ([':'] + x) == FileOf(b) + ([':'] + y)
    ensures RESERVED <= b[0]
  {
    BaseStarts(b);
    var low := Base(b[1..]);
    FileStarts(b[1..]);
    PopSlash(b[0], low, "/" + NAME, [':'] + y);
    var rest := (low + ("/" + NAME)) + ([':'] + y);
    assert FileOf([]) + ([':'] + x) == ['/'] + (RESERVED + x);
    CutSame(['/'], ['/'], RESERVED + x, b[0] + rest);
    assert rest[0] == '/';
    ReservedPrefix(b[0], rest, x);
  }

  lemma ReservedPrefix(name: string, rest: string, x: string)
    requires rest != "" && rest[0] == '/' && RESERVED + x == name + rest
    ensures RESERVED <= name
  {
    if |name| < |RESERVED| {
      assert (RESERVED + x)[|name|] == RESERVED[|name|];
      assert (name + rest)[|name|] == '/';
      NoSlash(|name|);
    } else {
      assert name[..|RESERVED|] == (name + rest)[..|RESERVED|] == RESERVED;
    }
  }

  lemma NoSlash(i: nat)
    ensures i < |RESERVED| ==> RESERVED[i] != '/'
  {
  }

  lemma PopName(m: string, a: string, n: string, b: string, x: string, y: string)
    requires '/' !in m && '/' !in n
    requires a == "" || a[0] == '/'
    requires b == "" || b[0] == '/'
    requires (("/" + (m + a)) + ("/" + NAME)) + x == (("/" + (n + b)) + ("/" + NAME)) + y
    ensures m == n && (a + ("/" + NAME)) + x == (b + ("/" + NAME)) + y
  {
    var s, t := (a + ("/" + NAME)) + x, (b + ("/" + NAME)) + y;
    PopSlash(m, a, "/" + NAME, x);
    PopSlash(n, b, "/" + NAME, y);
    CutSame(['/'], ['/'], m + s, n + t);
    assert s[0] == '/' && t[0] == '/';
    assert s == ['/'] + s[1..] && t == ['/'] + t[1..];
    CutAt(m, n, '/', s[1..], t[1..]);
  }

  lemma PopSlash(m: string, a: string, file: string, x: string)
    ensures (("/" + (m + a)) + file) + x == ['/'] + (m + ((a + file) + x))
  {
  }

  lemma BetweenNames(root: seq<string>, rel: seq<string>, m: nat, n: nat)
    requires m < n <= |rel|
    ensures root + rel[..n] == (root + rel[..m]) + [rel[m]] + rel[m + 1..n]
  {
  }

  /** Only one of two states has the deepest file, yet both show the same: the next name is an entry. */
  lemma OneSided(fs: FileSystem, ft: FileSystem, files: seq<string>, root: seq<string>, rel: seq<string>, n: nat)
    requires AllProper(root) && AllProper(rel) && n <= |rel| && files == FilesOf(root, rel)
    requires fs(files[n]).Some? && ft(files[n]).None?
    requires Signature(Upto(fs, files, n)) == Signature(Upto(ft, files, n))
    ensures !Unreserved(rel)
    ensures Unreserved(root) ==> Clashes(root, rel)
  {
    var t, above := fs(files[n]).value, Signature(Above(fs, files, n));
    RootedFiles(root, rel);
    ShownNext(fs, files, n);
    assert "/" <= files[n];
    var m := Deepest(ft, files, n);
    var s, y := ft(files[m]).value, Signature(Above(ft, files, m));
    ShownStarts(ft, files, m);
    NextName(root, rel, m, n, s, Numbers(t) + above, y);
    var q := Deepest(ft, files, m - 1);
    var u, x := ft(files[q]).value, Signature(Above(ft, files, q));
    if Unreserved(root) {
      FindClash(root, rel, q, m, n, s, t, above, u, x);
    }
  }

  lemma NextName(root: seq<string>, rel: seq<string>, m: nat, n: nat, s: Stat, z: string, y: string)
    requires AllProper(root) && AllProper(rel) && m < n <= |rel| && (y != "" ==> y[0] == '/')
    requires FilesOf(root, rel)[n] + z == FilesOf(root, rel)[m] + (Numbers(s) + y)
    ensures rel[m] == EntryName(s) && FileOf(rel[m + 1..n]) + z == y && y != ""
    ensures !Unreserved(rel)
  {
    FileAt(root, rel, m);
    FileAt(root, rel, n);
    BetweenNames(root, rel, m, n);
    assert Proper(rel[m]);
    NextIsEntry(root + rel[..m], rel[m], rel[m + 1..n], s, z, y);
    FileStarts(rel[m + 1..n]);
    EntryNameProper(s);
    assert rel[m] in rel;
  }

  lemma ColonStarts(s: Stat, x: string)
    ensures Numbers(s) + x == [':'] + (Numbers(s) + x)[1..]
  {
    NumbersPlain(s);
  }

  lemma FindClash(root: seq<string>, rel: seq<string>, q: nat, i: nat, n: nat,
                  s: Stat, t: Stat, x: string, u: Stat, y: string)
    requires AllProper(root) && AllProper(rel) && Unreserved(root)
    requires q < i < n <= |rel| && rel[i] == EntryName(s)
    requires FileOf(rel[i + 1..n]) + (Numbers(t) + x) == FilesOf(root, rel)[q] + (Numbers(u) + y)
    ensures Clashes(root, rel)
  {
    FileAt(root, rel, q);
    SubProper(rel, i + 1, n);
    SubProper(rel, 0, q);
    var low, high := rel[i + 1..n], root + rel[..q];
    ColonStarts(t, x);
    ColonStarts(u, y);
    OneAbove(low, high, (Numbers(t) + x)[1..], (Numbers(u) + y)[1..]);
    ClashFound(root, rel, q, i, n, s);
  }

  lemma ClashFound(root: seq<string>, rel: seq<string>, q: nat, i: nat, n: nat, s: Stat)
    requires Unreserved(root) && q < i < n <= |rel| && rel[i] == EntryName(s)
    requires var low, high := rel[i + 1..n], root + rel[..q];
             high <= low || (low < high && RESERVED <= high[|low|])
    ensures Clashes(root, rel)
  {
    var low, high := rel[i + 1..n], root + rel[..q];
    assert low <= rel[i + 1..];
    if high <= low {
      assert ClashAt(root, rel, q, i, s);
    } else {
      InRoot(root, rel[..q], |low|);
      PrefixOf(root, rel, q, low);
      assert ClashAt(root, rel, |low| - |root|, i, s);
    }
  }

  lemma InRoot(root: seq<string>, rel: seq<string>, k: nat)
    requires Unreserved(root) && k < |root + rel| && RESERVED <= (root + rel)[k]
    ensures |root| <= k
  {
    AtRoot(root, rel, k);
  }

  lemma AtRoot(root: seq<string>, rel: seq<string>, k: nat)
    ensures k < |root| ==> (root + rel)[k] in root
  {
  }

  lemma PrefixOf(root: seq<string>, rel: seq<string>, q: nat, low: seq<string>)
    requires q <= |rel| && low <= root + rel[..q] && |root| <= |low|
    ensures root + rel[..|low| - |root|] == low
  {
    var p := |low| - |root|;
    assert low == (root + rel[..q])[..|low|] == root + rel[..q][..p];
    assert rel[..q][..p] == rel[..p];
  }

  /** Where the signature tells every two states of the files of a chain apart. */
  ghost predicate Distinguished(root: seq<string>, rel: seq<string>) {
    Unreserved(rel) || (Unreserved(root) && !Clashes(root, rel))
  }

  /** There, equal signatures mean the same files with the same sizes and times. */
  lemma {:induction false} SignatureDetermines(
    fs: FileSystem, ft: FileSystem, files: seq<string>, root: seq<string>, rel: seq<string>, n: nat)
    requires AllProper(root) && AllProper(rel) && Distinguished(root, rel)
    requires n <= |rel| && files == FilesOf(root, rel)
    requires Signature(Upto(fs, files, n)) == Signature(Upto(ft, files, n))
    ensures Upto(fs, files, n) == Upto(ft, files, n)
  {
    var f := files[n];
    if fs(f).Some? && ft(f).None? {
      OneSided(fs, ft, files, root, rel, n);
    } else if fs(f).None? && ft(f).Some? {
      OneSided(ft, fs, files, root, rel, n);
    } else {
      SameFirst(fs, ft, files, n);
      if n > 0 {
        SignatureDetermines(fs, ft, files, root, rel, n - 1);
      }
    }
  }

  lemma SameFirst(fs: FileSystem, ft: FileSystem, files: seq<string>, n: nat)
    requires n < |files| && fs(files[n]).Some? == ft(files[n]).Some?
    requires Signature(Upto(fs, files, n)) == Signature(Upto(ft, files, n))
    ensures fs(files[n]) == ft(files[n])
    ensures Signature(Above(fs, files, n)) == Signature(Above(ft, files, n))
  {
    ShownNext(fs, files, n);
    ShownNext(ft, files, n);
    var f, x, y := files[n], Signature(Above(fs, files, n)), Signature(Above(ft, files, n));
    if fs(f).Some? {
      CutSame(f, f, Numbers(fs(f).value) + x, Numbers(ft(f).value) + y);
      SameNumbers(fs(f).value, ft(f).value, x, y);
    }
  }

  // ---------------------------------------------------------------- where they do not tell states apart

  lemma {:induction false} Skip(fs: FileSystem, files: seq<string>, m: nat, n: nat)
    requires m <= n < |files|
    requires forall p :: m < p <= n ==> fs(files[p]).None?
    ensures Upto(fs, files, n) == Upto(fs, files, m)
  {
    if m < n {
      Skip(fs, files, m, n - 1);
    }
  }

  lemma {:induction false} Nothing(fs: FileSystem, files: seq<string>, n: nat)
    requires n < |files|
    requires forall p :: 0 <= p <= n ==> fs(files[p]).None?
    ensures Upto(fs, files, n) == []
  {
    if n > 0 {
      Nothing(fs, files, n - 1);
    }
  }

  ghost predicate Distinct(files: seq<string>) {
    forall p, q :: 0 <= p < |files| && 0 <= q < |files| && p != q ==> files[p] != files[q]
  }

  lemma {:induction false} LongerBelow(names: seq<string>, k: nat)
    requires k < |names|
    ensures |Base(names[..k])| < |Base(names)|
  {
    var front := names[..|names| - 1];
    if k < |front| {
      LongerBelow(front, k);
      assert front[..k] == names[..k];
    } else {
      assert front == names[..k];
    }
  }

  lemma FilesDistinct(root: seq<string>, rel: seq<string>)
    ensures Distinct(FilesOf(root, rel))
  {
    forall p, q | 0 <= p < q <= |rel| ensures FilesOf(root, rel)[p] != FilesOf(root, rel)[q] {
      LongerFile(root, rel, p, q);
    }
  }

  lemma LongerFile(root: seq<string>, rel: seq<string>, p: nat, q: nat)
    requires p < q <= |rel|
    ensures |FilesOf(root, rel)[p]| < |FilesOf(root, rel)[q]|
  {
    FileAt(root, rel, p);
    FileAt(root, rel, q);
    var names := root + rel[..q];
    assert names[..|root| + p] == root + rel[..p];
    LongerBelow(names, |root| + p);
  }

  /** The state with these files and no other. */
  function Only(files: map<string, Stat>): FileSystem {
    f => if f in files then Some(files[f]) else None
  }

  lemma OnlyOne(files: seq<string>, m: nat, t: Stat)
    requires m < |files| && Distinct(files)
    ensures Upto(Only(map[files[m] := t]), files, |files| - 1) == [(files[m], t)]
  {
    var fs := Only(map[files[m] := t]);
    Skip(fs, files, m, |files| - 1);
    if m > 0 {
      Nothing(fs, files, m - 1);
    }
  }

  lemma OnlyTwo(files: seq<string>, m: nat, s: Stat, q: nat, t: Stat)
    requires q < m < |files| && Distinct(files)
    ensures Upto(Only(map[files[m] := s, files[q] := t]), files, |files| - 1) == [(files[m], s), (files[q], t)]
  {
    var fs := Only(map[files[m] := s, files[q] := t]);
    Skip(fs, files, m, |files| - 1);
    Skip(fs, files, q, m - 1);
    if q > 0 {
      Nothing(fs, files, q - 1);
    }
  }

  /** One file below the directory named like an entry has the signature of two above it. */
  lemma EntryReadsAsTwo(high: seq<string>, low: seq<string>, s: Stat, t: Stat)
    ensures Signature([(FileOf(high + [EntryName(s)] + low), t)]) ==
            Signature([(FileOf(high), s), (FileOf(low), t)])
  {
    var e := EntryName(s);
    BaseConcat(high + [e], low);
    BaseConcat(high, [e]);
    BaseOne(e);
    TwoEntries(Base(high), Base(low), Numbers(s), Numbers(t));
    var a, b, c := (FileOf(high), s), (FileOf(low), t), (FileOf(high + [e] + low), t);
    assert [c][1..] == [] && [a, b][1..] == [b] && [b][1..] == [];
    assert EntryText(b) + "" == EntryText(b) && EntryText(c) + "" == EntryText(c);
  }

  lemma TwoEntries(high: string, low: string, m: string, n: string)
    ensures (((high + ("/" + (NAME + m))) + low) + ("/" + NAME)) + n ==
            ((high + ("/" + NAME)) + m) + ((low + ("/" + NAME)) + n)
  {
    assert high + ("/" + (NAME + m)) == (high + ("/" + NAME)) + m;
  }

  /** Two states of the files of a chain that the signature does not tell apart. */
  ghost predicate Confused(fs: FileSystem, ft: FileSystem, dirs: seq<string>) {
    Signature(Present(fs, dirs)) == Signature(Present(ft, dirs)) && Present(fs, dirs) != Present(ft, dirs)
  }

  /** Below clashing directories two states have the same signature: one file, or two others. */
  lemma SignatureClash(dirs: seq<string>, root: seq<string>, rel: seq<string>, q: nat, i: nat, s: Stat, t: Stat)
    returns (one: FileSystem, two: FileSystem)
    requires Walked(dirs, root, rel) && ClashAt(root, rel, q, i, s)
    ensures Confused(one, two, dirs)
    ensures var m, files := i + 1 + |root| + q, FilesOf(root, rel);
            m <= |rel| && Present(one, dirs) == [(files[m], t)] && Present(two, dirs) == [(files[i], s), (files[q], t)]
  {
    ClashSigns(root, rel, q, i, s, t);
    one, two := ClashOnWalk(dirs, FilesOf(root, rel), root, rel, i + 1 + |root| + q, i, q, s, t);
  }

  lemma ClashOnWalk(
    dirs: seq<string>, files: seq<string>, root: seq<string>, rel: seq<string>, m: nat, i: nat, q: nat, s: Stat, t: Stat)
    returns (one: FileSystem, two: FileSystem)
    requires Walked(dirs, root, rel) && files == FilesOf(root, rel) && Distinct(files) && q < i < m < |files|
    requires Signature([(files[m], t)]) == Signature([(files[i], s), (files[q], t)])
    ensures Confused(one, two, dirs)
    ensures Present(one, dirs) == [(files[m], t)] && Present(two, dirs) == [(files[i], s), (files[q], t)]
  {
    one, two := ClashStates(files, m, i, q, s, t);
    PresentOnWalk(one, dirs, root, rel);
    PresentOnWalk(two, dirs, root, rel);
    SameSignature(one, two, dirs, [(files[m], t)], [(files[i], s), (files[q], t)]);
  }

  lemma SameSignature(
    fs: FileSystem, ft: FileSystem, dirs: seq<string>, a: seq<(string, Stat)>, b: seq<(string, Stat)>)
    requires Present(fs, dirs) == a && Present(ft, dirs) == b && Signature(a) == Signature(b) && |a| != |b|
    ensures Confused(fs, ft, dirs)
  {
  }

  lemma ClashSigns(root: seq<string>, rel: seq<string>, q: nat, i: nat, s: Stat, t: Stat)
    requires ClashAt(root, rel, q, i, s)
    ensures var m, files := i + 1 + |root| + q, FilesOf(root, rel);
            && m <= |rel| && Distinct(files)
            && Signature([(files[m], t)]) == Signature([(files[i], s), (files[q], t)])
  {
    FilesDistinct(root, rel);
    var high, low := ClashFiles(root, rel, q, i, s);
    EntryReadsAsTwo(high, low, s, t);
  }

  lemma ClashFiles(root: seq<string>, rel: seq<string>, q: nat, i: nat, s: Stat)
    returns (high: seq<string>, low: seq<string>)
    requires ClashAt(root, rel, q, i, s)
    ensures var m, files := i + 1 + |root| + q, FilesOf(root, rel);
            && m <= |rel| && files[i] == FileOf(high) && files[q] == FileOf(low)
            && files[m] == FileOf(high + [EntryName(s)] + low)
  {
    high, low := root + rel[..i], root + rel[..q];
    ClashPath(root, rel, q, i, s);
    FileAtIs(root, rel, i + 1 + |root| + q, high + [EntryName(s)] + low);
    FileAtIs(root, rel, i, high);
    FileAtIs(root, rel, q, low);
  }

  lemma FileAtIs(root: seq<string>, rel: seq<string>, p: nat, names: seq<string>)
    requires p <= |rel| && names == root + rel[..p]
    ensures FilesOf(root, rel)[p] == FileOf(names)
  {
    FileAt(root, rel, p);
  }

  lemma ClashStates(files: seq<string>, m: nat, i: nat, q: nat, s: Stat, t: Stat)
    returns (one: FileSystem, two: FileSystem)
    requires q < i < m < |files| && Distinct(files)
    ensures Upto(one, files, |files| - 1) == [(files[m], t)]
    ensures Upto(two, files, |files| - 1) == [(files[i], s), (files[q], t)]
  {
    one, two := Only(map[files[m] := t]), Only(map[files[i] := s, files[q] := t]);
    OnlyOne(files, m, t);
    OnlyTwo(files, i, s, q, t);
  }

  lemma ClashPath(root: seq<string>, rel: seq<string>, q: nat, i: nat, s: Stat)
    requires ClashAt(root, rel, q, i, s)
    ensures var m := i + 1 + |root| + q;
            m <= |rel| && root + rel[..m] == (root + rel[..i]) + [EntryName(s)] + (root + rel[..q])
  {
    var m, low := i + 1 + |root| + q, root + rel[..q];
    assert |low| <= |rel[i + 1..]|;
    assert low == rel[i + 1..][..|low|] == rel[i + 1..m];
    assert rel[..m] == rel[..i] + [rel[i]] + rel[i + 1..m];
  }

  /**
   * Below a document root without reserved names, the signature tells every two states of the
   * files apart exactly when the directories of the request do not clash.
   */
  lemma SignatureIff(dirs: seq<string>, root: seq<string>, rel: seq<string>)
    requires Walked(dirs, root, rel) && Unreserved(root)
    ensures (exists fs, ft :: Confused(fs, ft, dirs)) <==> Clashes(root, rel)
  {
    if Clashes(root, rel) {
      var q: nat, i: nat, s :| ClashAt(root, rel, q, i, s);
      var one, two := SignatureClash(dirs, root, rel, q, i, s, s);
    } else {
      forall fs, ft ensures !Confused(fs, ft, dirs) {
        if Signature(Present(fs, dirs)) == Signature(Present(ft, dirs)) {
          NotConfused(fs, ft, dirs, root, rel);
        }
      }
    }
  }

  lemma NotConfused(fs: FileSystem, ft: FileSystem, dirs: seq<string>, root: seq<string>, rel: seq<string>)
    requires Walked(dirs, root, rel) && Distinguished(root, rel)
    requires Signature(Present(fs, dirs)) == Signature(Present(ft, dirs))
    ensures Present(fs, dirs) == Present(ft, dirs)
  {
    PresentOnWalk(fs, dirs, root, rel);
    PresentOnWalk(ft, dirs, root, rel);
    SignatureDetermines(fs, ft, FilesOf(root, rel), root, rel, |rel|);
  }
}
