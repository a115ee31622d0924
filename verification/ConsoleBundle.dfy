/**
 The console bundle's manifest and its verification. The root digest's input decodes to
 the list of entries, and a tree verifies against another tree's manifest exactly when
 both hold the same files up to line endings (or SHA-256 collides).
 */
module ConsoleBundle {
  import opened Text
  import opened Sorting

  newtype byte = b: int | 0 <= b < 256

  type Bytes = seq<byte>

  /** SHA-256 of bytes, as 64 hex digits. */
  type Digest = Bytes -> string

  ghost predicate HexDigest(d: Digest)
  {
    forall x :: IsHex64(d(x))
  }

  predicate BytesCollide(d: Digest, x: Bytes, y: Bytes)
  {
    x != y && d(x) == d(y)
  }

  // --------------------------------------------------------------------- line endings

  const CR: byte := 13
  const LF: byte := 10

  /** `data.replace(b"\r\n", b"\n")`. */
  function Canon(x: Bytes): Bytes
  {
    if x == [] then []
    else if |x| >= 2 && x[0] == CR && x[1] == LF then [LF] + Canon(x[2..])
    else [x[0]] + Canon(x[1..])
  }

  /** What a checkout with CRLF endings makes of a file. */
  function ToCrlf(x: Bytes): Bytes
  {
    if x == [] then [] else (if x[0] == LF then [CR, LF] else [x[0]]) + ToCrlf(x[1..])
  }

  ghost predicate HasCrlf(x: Bytes)
  {
    exists i :: 0 <= i < |x| - 1 && x[i] == CR && x[i + 1] == LF
  }

  /** Normalising undoes a CRLF checkout, whatever the file. */
  lemma {:induction false} CanonUndoesCheckout(x: Bytes)
    ensures Canon(ToCrlf(x)) == x
    ensures ToCrlf(x) != [] ==> ToCrlf(x)[0] != LF
  {
    if x != [] {
      CanonUndoesCheckout(x[1..]);
      var y := ToCrlf(x);
      if x[0] == LF {
        assert y[2..] == ToCrlf(x[1..]);
      } else {
        assert y[1..] == ToCrlf(x[1..]);
      }
      assert x == [x[0]] + x[1..];
    }
  }

  /** A file is its own normal form exactly when it has no CRLF. */
  lemma {:induction false} CanonFixed(x: Bytes)
    ensures |Canon(x)| <= |x|
    ensures Canon(x) == x <==> !HasCrlf(x)
  {
    if x == [] {
    } else if |x| >= 2 && x[0] == CR && x[1] == LF {
      CanonFixed(x[2..]);
      assert HasCrlf(x);
    } else {
      CanonFixed(x[1..]);
      assert x == [x[0]] + x[1..];
      if HasCrlf(x[1..]) {
        var i :| 0 <= i < |x[1..]| - 1 && x[1..][i] == CR && x[1..][i + 1] == LF;
        assert x[i + 1] == CR && x[i + 2] == LF;
      }
      if HasCrlf(x) {
        var i :| 0 <= i < |x| - 1 && x[i] == CR && x[i + 1] == LF;
        assert x[1..][i - 1] == CR && x[1..][i] == LF;
      }
    }
  }

  // ----------------------------------------------------------------------------- UTF-8

  function EncodeChar(c: char): (r: Bytes)
    ensures r != []
  {
    var n := c as int;
    if n < 0x80 then [n as byte]
    else if n < 0x800 then [(0xC0 + n / 64) as byte, (0x80 + n % 64) as byte]
    else if n < 0x10000 then
      [(0xE0 + n / 4096) as byte, (0x80 + n / 64 % 64) as byte, (0x80 + n % 64) as byte]
    else
      [(0xF0 + n / 262144) as byte, (0x80 + n / 4096 % 64) as byte,
       (0x80 + n / 64 % 64) as byte, (0x80 + n % 64) as byte]
  }

  function Utf8(s: string): Bytes
  {
    if s == "" then [] else EncodeChar(s[0]) + Utf8(s[1..])
  }

  /** How many bytes the character starting with this byte takes. */
  function Width(b: byte): nat
  {
    if b < 0x80 then 1 else if b < 0xE0 then 2 else if b < 0xF0 then 3 else 4
  }

  /** The number encoded by one character's bytes. */
  function Scalar(x: Bytes): int
  {
    if |x| == 1 then x[0] as int
    else if |x| == 2 then (x[0] as int - 0xC0) * 64 + (x[1] as int - 0x80)
    else if |x| == 3 then (x[0] as int - 0xE0) * 4096 + (x[1] as int - 0x80) * 64 + (x[2] as int - 0x80)
    else if |x| == 4 then
      (x[0] as int - 0xF0) * 262144 + (x[1] as int - 0x80) * 4096 + (x[2] as int - 0x80) * 64 + (x[3] as int - 0x80)
    else 0
  }

  lemma CharBytes(c: char)
    ensures |EncodeChar(c)| == Width(EncodeChar(c)[0]) && Scalar(EncodeChar(c)) == c as int
  {
    var n := c as int;
    assert n / 64 == n / 4096 * 64 + n / 64 % 64;
    assert n / 4096 == n / 262144 * 64 + n / 4096 % 64;
  }

  lemma {:induction false} Utf8Injective(s: string, t: string)
    requires Utf8(s) == Utf8(t)
    ensures s == t
  {
    hide EncodeChar, Width, Scalar;
    if s != "" && t != "" {
      var p, q := EncodeChar(s[0]), EncodeChar(t[0]);
      CharBytes(s[0]);
      CharBytes(t[0]);
      assert p[0] == Utf8(s)[0] == q[0];
      assert p == Utf8(s)[..|p|] && q == Utf8(t)[..|q|];
      assert Utf8(s[1..]) == Utf8(s)[|p|..] && Utf8(t[1..]) == Utf8(t)[|q|..];
      Utf8Injective(s[1..], t[1..]);
      assert s == [s[0]] + s[1..] && t == [t[0]] + t[1..];
    }
  }

  // -------------------------------------------------------------------------- manifests

  datatype File = File(path: string, data: Bytes)

  datatype Entry = Entry(path: string, sha: string, bytes: nat)

  datatype Manifest = Manifest(files: seq<Entry>, fileCount: nat, totalBytes: nat, rootSha: string)

  /** A directory walk: every path once, in any order. */
  ghost predicate IsTree(tree: seq<File>)
  {
    forall i, j :: 0 <= i < j < |tree| ==> tree[i].path != tree[j].path
  }

  predicate PathLe(a: File, b: File)
  {
    StrLe(a.path, b.path)
  }

  /** `iter_files`: the walk sorted by path. */
  function IterFiles(tree: seq<File>): seq<File>
  {
    Sort(tree, PathLe)
  }

  function EntryOf(d: Digest, f: File): Entry
  {
    Entry(f.path, d(Canon(f.data)), |Canon(f.data)|)
  }

  function EntriesOf(d: Digest, files: seq<File>): (r: seq<Entry>)
    ensures |r| == |files|
    ensures forall i :: 0 <= i < |files| ==> r[i] == EntryOf(d, files[i])
  {
    seq(|files|, i requires 0 <= i < |files| => EntryOf(d, files[i]))
  }

  function Line(e: Entry): string
  {
    e.sha + "  " + e.path + "\n"
  }

  function Lines(es: seq<Entry>): string
  {
    if es == [] then "" else Line(es[0]) + Lines(es[1..])
  }

  function RootDigest(d: Digest, es: seq<Entry>): string
  {
    d(Utf8(Lines(es)))
  }

  function TotalBytes(es: seq<Entry>): nat
  {
    if es == [] then 0 else TotalBytes(es[..|es| - 1]) + es[|es| - 1].bytes
  }

  /** The streaming form: lines are fed to the hash one after the other. */
  method RootDigestOf(d: Digest, es: seq<Entry>) returns (r: string)
    ensures r == RootDigest(d, es)
  {
    var fed: Bytes := [];
    for i := 0 to |es|
      invariant fed + Utf8(Lines(es[i..])) == Utf8(Lines(es))
    {
      var line := Utf8(Line(es[i]));
      Utf8Concat(Line(es[i]), Lines(es[i + 1..]));
      assert es[i..][1..] == es[i + 1..];
      assert fed + (line + Utf8(Lines(es[i + 1..]))) == (fed + line) + Utf8(Lines(es[i + 1..]));
      fed := fed + line;
    }
    assert es[|es|..] == [];
    assert fed + [] == fed;
    r := d(fed);
  }

  lemma {:induction false} Utf8Concat(s: string, t: string)
    ensures Utf8(s + t) == Utf8(s) + Utf8(t)
  {
    hide EncodeChar;
    if s == "" {
      assert s + t == t;
    } else {
      assert (s + t)[1..] == s[1..] + t;
      Utf8Concat(s[1..], t);
    }
  }

  /** `manifest_for`. */
  method ManifestFor(d: Digest, tree: seq<File>) returns (m: Manifest)
    ensures m.files == EntriesOf(d, IterFiles(tree)) && m.fileCount == |tree|
    ensures m.rootSha == RootDigest(d, m.files) && m.totalBytes == TotalBytes(m.files)
  {
    hide Canon, Sort, RootDigest;
    var files := IterFiles(tree);
    var entries: seq<Entry> := [];
    var total := 0;
    for i := 0 to |files|
      invariant entries == EntriesOf(d, files)[..i] && total == TotalBytes(entries)
    {
      var e := EntryOf(d, files[i]);
      ghost var before := entries;
      entries := entries + [e];
      total := total + e.bytes;
      assert entries[..|entries| - 1] == before;
    }
    var root := RootDigestOf(d, entries);
    m := Manifest(entries, |entries|, total, root);
  }

  /** The hashed text is one line per file, digest and path two blanks apart, and the total adds up. */
  lemma {:induction false} ManifestText(a: seq<Entry>, e: Entry)
    ensures Lines(a + [e]) == Lines(a) + e.sha + "  " + e.path + "\n"
    ensures TotalBytes(a + [e]) == TotalBytes(a) + e.bytes
    ensures Lines([]) == "" && TotalBytes([]) == 0
  {
    assert (a + [e])[..|a|] == a;
    if a == [] {
      assert a + [e] == [e] && [e][1..] == [];
    } else {
      ManifestText(a[1..], e);
      assert (a + [e])[1..] == a[1..] + [e];
    }
  }

  // ------------------------------------------------------------------ unique decoding

  ghost predicate Decodable(es: seq<Entry>)
  {
    forall e :: e in es ==> |e.sha| == 64 && forall i :: 0 <= i < |e.path| ==> e.path[i] != '\n'
  }

  datatype Named = Named(path: string, sha: string)

  function Names(es: seq<Entry>): (r: seq<Named>)
    ensures |r| == |es|
  {
    if es == [] then [] else [Named(es[0].path, es[0].sha)] + Names(es[1..])
  }

  lemma LineEnds(a: Entry, x: string, b: Entry, y: string)
    requires Decodable([a]) && Decodable([b]) && Line(a) + x == Line(b) + y
    ensures a.path == b.path && a.sha == b.sha && x == y
  {
    assert a in [a] && b in [b];
    var s := Line(a) + x;
    assert s[..64] == a.sha && s[..64] == b.sha;
    var p, q := |a.path|, |b.path|;
    assert forall i :: 0 <= i < p ==> s[66 + i] == a.path[i];
    assert forall i :: 0 <= i < q ==> s[66 + i] == b.path[i];
    assert s[66 + p] == '\n' && s[66 + q] == '\n';
    assert p == q;
    assert a.path == s[66..66 + p] && b.path == s[66..66 + q];
    assert x == s[67 + p..] && y == s[67 + q..];
  }

  /** For paths without newlines the hashed text determines every path and digest. */
  lemma {:induction false} LinesDecode(a: seq<Entry>, b: seq<Entry>)
    requires Decodable(a) && Decodable(b) && Lines(a) == Lines(b)
    ensures Names(a) == Names(b)
  {
    if a != [] && b != [] {
      assert a[0] in a && b[0] in b;
      assert Decodable([a[0]]) && Decodable([b[0]]);
      assert Decodable(a[1..]) && Decodable(b[1..]);
      LineEnds(a[0], Lines(a[1..]), b[0], Lines(b[1..]));
      LinesDecode(a[1..], b[1..]);
    }
  }

  /** The root digest commits to the list of paths and digests. */
  lemma RootDigestCommits(d: Digest, a: seq<Entry>, b: seq<Entry>)
    requires Decodable(a) && Decodable(b) && RootDigest(d, a) == RootDigest(d, b)
    ensures Names(a) == Names(b) || BytesCollide(d, Utf8(Lines(a)), Utf8(Lines(b)))
  {
    hide Lines, Utf8, Names, Decodable;
    if Utf8(Lines(a)) == Utf8(Lines(b)) {
      Utf8Injective(Lines(a), Lines(b));
      LinesDecode(a, b);
    }
  }

  // ----------------------------------------------------------------------- verification

  datatype Problem =
    | MissingFile(path: string)
    | ExtraFile(path: string)
    | ContentDiffers(path: string)
    | SizeDiffers(path: string)
    | RootDiffers

  function PathSet(files: seq<File>): set<string>
  {
    set f | f in files :: f.path
  }

  ghost predicate Increasing(ps: seq<string>)
  {
    forall i, j :: 0 <= i < j < |ps| ==> StrLt(ps[i], ps[j])
  }

  /** `sorted(s)` of a set of paths. */
  method SortedSet(s: set<string>) returns (r: seq<string>)
    ensures Increasing(r)
    ensures forall p :: p in r <==> p in s
  {
    var todo := s;
    var listed: seq<string> := [];
    while todo != {}
      invariant todo <= s && NoDup(listed)
      invariant forall p :: p in listed <==> p in s && p !in todo
      decreases todo
    {
      var p :| p in todo;
      listed := listed + [p];
      todo := todo - {p};
    }
    r := Sort(listed, StrLe);
    SortedDistinct(listed);
  }

  lemma StrLeTotal()
    ensures TotalPreorder(StrLe)
  {
    forall x, y
      ensures StrLe(x, y) || StrLe(y, x)
    {
      StrLtTrichotomy(x, y);
    }
    forall x, y, z | StrLe(x, y) && StrLe(y, z)
      ensures StrLe(x, z)
    {
      StrLeTransitive(x, y, z);
    }
  }

  lemma SortedDistinct(ps: seq<string>)
    requires NoDup(ps)
    ensures Increasing(Sort(ps, StrLe))
    ensures forall p :: p in Sort(ps, StrLe) <==> p in ps
  {
    hide Sort;
    var r := Sort(ps, StrLe);
    StrLeTotal();
    SortSorts(ps, StrLe);
    SameMembers(r, ps);
    NoDupPermuted(ps, r);
    forall i, j | 0 <= i < j < |r|
      ensures StrLt(r[i], r[j])
    {
      StrLtTrichotomy(r[i], r[j]);
    }
  }

  /** There is one increasing list of a set of paths. */
  lemma IncreasingUnique(a: seq<string>, b: seq<string>)
    requires Increasing(a) && Increasing(b) && forall p :: p in a <==> p in b
    ensures a == b
  {
    IncreasingNoTies(a);
    IncreasingNoTies(b);
    NoDupSameMembers(a, b);
    SortedUnique(a, b, StrLe);
  }

  lemma IncreasingNoTies(a: seq<string>)
    requires Increasing(a)
    ensures NoDup(a) && Sorted(a, StrLe) && NoTies(a, StrLe)
  {
    forall i, j | 0 <= i < j < |a|
      ensures a[i] != a[j] && StrLe(a[i], a[j])
    {
      StrLtTrichotomy(a[i], a[j]);
    }
    forall x, y | StrLe(x, y) && StrLe(y, x)
      ensures x == y
    {
      StrLtTrichotomy(x, y);
    }
  }

  /** The entry a path has in a manifest; a repeated path counts with its last entry. */
  function Want(files: seq<Entry>): (r: map<string, Entry>)
  {
    if files == [] then map[] else Want(files[..|files| - 1])[files[|files| - 1].path := files[|files| - 1]]
  }

  function FileAt(tree: seq<File>, path: string): (f: File)
    requires path in PathSet(tree)
    ensures f in tree && f.path == path
  {
    if tree[0].path == path then tree[0]
    else
      assert tree == [tree[0]] + tree[1..];
      FileAt(tree[1..], path)
  }

  /** The tree has the wanted files with the wanted digests and sizes. */
  ghost predicate Matches(d: Digest, tree: seq<File>, want: map<string, Entry>)
  {
    && want.Keys == PathSet(tree)
    && forall f :: f in tree ==> want[f.path].sha == EntryOf(d, f).sha && want[f.path].bytes == EntryOf(d, f).bytes
  }

  /** A path that only one side has. */
  ghost predicate IsKeyProblem(want: map<string, Entry>, have: set<string>, q: Problem)
  {
    || (q.MissingFile? && q.path in want && q.path !in have)
    || (q.ExtraFile? && q.path in have && q.path !in want)
  }

  /** A file whose digest differs, or whose digest agrees but size does not. */
  ghost predicate IsFileProblem(d: Digest, tree: seq<File>, want: map<string, Entry>, q: Problem)
  {
    && (q.ContentDiffers? || q.SizeDiffers?) && q.path in want && q.path in PathSet(tree)
    && var e := EntryOf(d, FileAt(tree, q.path));
       if q.ContentDiffers? then e.sha != want[q.path].sha
       else e.sha == want[q.path].sha && e.bytes != want[q.path].bytes
  }

  /** Where in the report a problem belongs. */
  function Section(q: Problem): nat
  {
    match q
    case MissingFile(_) => 0
    case ExtraFile(_) => 1
    case ContentDiffers(_) => 2
    case SizeDiffers(_) => 2
    case RootDiffers => 3
  }

  predicate ReportedBefore(p: Problem, q: Problem)
  {
    Section(p) < Section(q) || (Section(p) == Section(q) < 3 && StrLt(p.path, q.path))
  }

  /** Section by section, in path order, nothing twice. */
  ghost predicate InReportOrder(problems: seq<Problem>)
  {
    forall i, j :: 0 <= i < j < |problems| ==> ReportedBefore(problems[i], problems[j])
  }

  /** The next path of a section goes at the end. */
  lemma ReportNext(problems: seq<Problem>, paths: seq<string>, i: nat, q: Problem)
    requires InReportOrder(problems) && Increasing(paths) && i < |paths| && Section(q) < 3 && q.path == paths[i]
    requires forall p :: p in problems ==> Section(p) < Section(q) || (Section(p) == Section(q) && p.path in paths[..i])
    ensures InReportOrder(problems + [q])
  {
    hide StrLt;
    forall k | 0 <= k < |problems|
      ensures ReportedBefore(problems[k], q)
    {
      var p := problems[k];
      assert p in problems;
      if Section(p) == Section(q) {
        var j :| 0 <= j < i && paths[j] == p.path;
        assert StrLt(paths[j], paths[i]);
      }
    }
  }

  method CompareKeys(want: map<string, Entry>, have: set<string>) returns (problems: seq<Problem>)
    ensures forall q :: q in problems <==> IsKeyProblem(want, have, q)
    ensures InReportOrder(problems)
  {
    hide StrLt, InReportOrder;
    var missing := SortedSet(want.Keys - have);
    var extra := SortedSet(have - want.Keys);
    problems := [];
    NothingReported();
    for i := 0 to |missing|
      invariant InReportOrder(problems)
      invariant forall q :: q in problems <==> q.MissingFile? && q.path in missing[..i]
    {
      ReportNext(problems, missing, i, MissingFile(missing[i]));
      problems := problems + [MissingFile(missing[i])];
      assert missing[..i + 1] == missing[..i] + [missing[i]];
    }
    assert missing[..|missing|] == missing;
    for i := 0 to |extra|
      invariant InReportOrder(problems)
      invariant forall q :: q in problems <==> (q.MissingFile? && q.path in missing) || (q.ExtraFile? && q.path in extra[..i])
    {
      ReportNext(problems, extra, i, ExtraFile(extra[i]));
      problems := problems + [ExtraFile(extra[i])];
      assert extra[..i + 1] == extra[..i] + [extra[i]];
    }
    assert extra[..|extra|] == extra;
  }

  method CompareFiles(d: Digest, tree: seq<File>, want: map<string, Entry>, both: seq<string>)
    returns (problems: seq<Problem>, entries: seq<Entry>, ghost files: seq<File>)
    requires Increasing(both) && forall p :: p in both <==> p in want && p in PathSet(tree)
    ensures forall q :: q in problems <==> IsFileProblem(d, tree, want, q)
    ensures InReportOrder(problems)
    ensures |files| == |both| && forall i :: 0 <= i < |both| ==> files[i].path == both[i] && files[i] in tree
    ensures entries == EntriesOf(d, files)
  {
    hide Canon, PathSet, StrLt, InReportOrder, Increasing;
    problems, entries, files := [], [], [];
    NothingReported();
    for i := 0 to |both|
      invariant InReportOrder(problems)
      invariant forall q :: q in problems <==> IsFileProblem(d, tree, want, q) && q.path in both[..i]
      invariant |files| == i && forall j :: 0 <= j < i ==> files[j].path == both[j] && files[j] in tree
      invariant entries == EntriesOf(d, files)
    {
      assert both[i] in both;
      var f := FileAt(tree, both[i]);
      var e := EntryOf(d, f);
      if e.sha != want[both[i]].sha {
        ReportNext(problems, both, i, ContentDiffers(both[i]));
        problems := problems + [ContentDiffers(both[i])];
      } else if e.bytes != want[both[i]].bytes {
        ReportNext(problems, both, i, SizeDiffers(both[i]));
        problems := problems + [SizeDiffers(both[i])];
      }
      entries := entries + [e];
      files := files + [f];
      assert both[..i + 1] == both[..i] + [both[i]];
    }
    assert both[..|both|] == both;
  }

  lemma NoProblemIffMatches(d: Digest, tree: seq<File>, want: map<string, Entry>)
    requires IsTree(tree)
    ensures Matches(d, tree, want) <==>
            forall q :: !IsKeyProblem(want, PathSet(tree), q) && !IsFileProblem(d, tree, want, q)
  {
    hide Canon;
    if forall q :: !IsKeyProblem(want, PathSet(tree), q) && !IsFileProblem(d, tree, want, q) {
      forall p
        ensures p in want.Keys <==> p in PathSet(tree)
      {
        assert !IsKeyProblem(want, PathSet(tree), MissingFile(p));
        assert !IsKeyProblem(want, PathSet(tree), ExtraFile(p));
      }
      forall f | f in tree
        ensures want[f.path].sha == EntryOf(d, f).sha && want[f.path].bytes == EntryOf(d, f).bytes
      {
        assert f.path in PathSet(tree);
        assert FileAt(tree, f.path) == f;
        assert !IsFileProblem(d, tree, want, ContentDiffers(f.path));
        assert !IsFileProblem(d, tree, want, SizeDiffers(f.path));
      }
    }
  }

  /**
   `verify`: it lists exactly the paths only one side has and the files that differ,
   each once, section by section in path order, and doubts the root digest only when
   everything else agrees.
   */
  method Verify(d: Digest, tree: seq<File>, m: Manifest) returns (problems: seq<Problem>)
    requires IsTree(tree)
    ensures forall q :: q in problems <==>
              || IsKeyProblem(Want(m.files), PathSet(tree), q)
              || IsFileProblem(d, tree, Want(m.files), q)
              || (q == RootDiffers && Matches(d, tree, Want(m.files)) && m.rootSha != RootDigest(d, EntriesOf(d, IterFiles(tree))))
    ensures InReportOrder(problems)
    ensures problems == [] <==>
            Matches(d, tree, Want(m.files)) && m.rootSha == RootDigest(d, EntriesOf(d, IterFiles(tree)))
  {
    hide Canon, Sort, RootDigest, StrLt, Want, PathSet, IsKeyProblem, IsFileProblem, IterFiles, EntriesOf, EntryOf;
    var want := Want(m.files);
    var have := PathSet(tree);
    var keyProblems := CompareKeys(want, have);
    var both := SortedSet(want.Keys * have);
    var fileProblems, entries, files := CompareFiles(d, tree, want, both);
    problems := keyProblems + fileProblems;
    SectionsInOrder(d, tree, want, keyProblems, fileProblems);
    NoProblemIffMatches(d, tree, want);
    EmptyIffNone(problems);
    assert problems == [] <==> Matches(d, tree, want);
    if Matches(d, tree, want) {
      AllListed(tree, both, files);
    }
    var root := RootDigestOf(d, entries);
    if problems == [] && root != m.rootSha {
      problems := problems + [RootDiffers];
    }
  }

  lemma SectionsInOrder(d: Digest, tree: seq<File>, want: map<string, Entry>, keys: seq<Problem>, files: seq<Problem>)
    requires InReportOrder(keys) && InReportOrder(files)
    requires forall q :: q in keys <==> IsKeyProblem(want, PathSet(tree), q)
    requires forall q :: q in files <==> IsFileProblem(d, tree, want, q)
    ensures InReportOrder(keys + files)
  {
    hide StrLt, PathSet, EntryOf;
    forall i, j | 0 <= i < |keys| && 0 <= j < |files|
      ensures ReportedBefore(keys[i], files[j])
    {
      assert keys[i] in keys && IsKeyProblem(want, PathSet(tree), keys[i]);
      assert files[j] in files && IsFileProblem(d, tree, want, files[j]);
    }
  }

  lemma NothingReported()
    ensures InReportOrder([])
  {
  }

  lemma EmptyIffNone(problems: seq<Problem>)
    ensures problems == [] <==> forall q :: q !in problems
  {
    if problems != [] {
      assert problems[0] in problems;
    }
  }

  /** Listing a tree by its sorted paths is listing it in walk order sorted by path. */
  lemma AllListed(tree: seq<File>, paths: seq<string>, files: seq<File>)
    requires IsTree(tree) && Increasing(paths) && |files| == |paths|
    requires forall p :: p in paths <==> p in PathSet(tree)
    requires forall i :: 0 <= i < |paths| ==> files[i].path == paths[i] && files[i] in tree
    ensures files == IterFiles(tree)
  {
    hide Sort, StrLt;
    IncreasingNoTies(paths);
    forall f
      ensures f in files <==> f in tree
    {
      if f in tree {
        assert f.path in paths;
        var i :| 0 <= i < |paths| && paths[i] == f.path;
        assert files[i].path == f.path;
      }
    }
    NoDupSameMembers(files, tree);
    SortTree(tree);
    assert Sorted(files, PathLe);
    NoTiesByPath(files, paths);
    SortedUnique(files, IterFiles(tree), PathLe);
  }

  lemma NoTiesByPath(files: seq<File>, paths: seq<string>)
    requires |files| == |paths| && NoDup(paths) && forall i :: 0 <= i < |paths| ==> files[i].path == paths[i]
    ensures NoTies(files, PathLe)
  {
    forall x, y | x in files && y in files && PathLe(x, y) && PathLe(y, x)
      ensures x == y
    {
      StrLtTrichotomy(x.path, y.path);
    }
  }

  lemma SortTree(tree: seq<File>)
    ensures Sorted(IterFiles(tree), PathLe) && multiset(IterFiles(tree)) == multiset(tree)
  {
    forall x: File, y: File
      ensures PathLe(x, y) || PathLe(y, x)
    {
      StrLtTrichotomy(x.path, y.path);
    }
    forall x: File, y: File, z: File | PathLe(x, y) && PathLe(y, z)
      ensures PathLe(x, z)
    {
      StrLeTransitive(x.path, y.path, z.path);
    }
    SortSorts(tree, PathLe);
  }

  // ------------------------------------------------------------------- same tree or not

  /** Same paths, same contents up to line endings. */
  ghost predicate SameUpToLineEndings(a: seq<File>, b: seq<File>)
  {
    && PathSet(a) == PathSet(b)
    && forall f, g :: f in a && g in b && f.path == g.path ==> Canon(f.data) == Canon(g.data)
  }

  /** Two files of the trees have different normal forms that hash alike. */
  ghost predicate FilesCollide(d: Digest, a: seq<File>, b: seq<File>)
  {
    exists f, g :: f in a && g in b && BytesCollide(d, Canon(f.data), Canon(g.data))
  }

  lemma {:induction false} WantEntries(d: Digest, files: seq<File>)
    requires IsTree(files)
    ensures Want(EntriesOf(d, files)).Keys == PathSet(files)
    ensures forall f :: f in files ==> Want(EntriesOf(d, files))[f.path] == EntryOf(d, f)
  {
    hide Canon;
    if files != [] {
      var n := |files| - 1;
      var rest := files[..n];
      assert files == rest + [files[n]];
      assert EntriesOf(d, files)[..n] == EntriesOf(d, rest);
      WantEntries(d, rest);
      forall f | f in files
        ensures Want(EntriesOf(d, files))[f.path] == EntryOf(d, f)
      {
        if f != files[n] {
          assert f in rest;
          assert f.path != files[n].path;
        }
      }
    }
  }

  lemma TreePermuted(tree: seq<File>)
    requires IsTree(tree)
    ensures IsTree(IterFiles(tree)) && PathSet(IterFiles(tree)) == PathSet(tree)
    ensures forall f :: f in IterFiles(tree) <==> f in tree
  {
    hide Sort;
    var t := IterFiles(tree);
    SameMembers(t, tree);
    NoDupPermuted(tree, t);
    forall i, j | 0 <= i < j < |t|
      ensures t[i].path != t[j].path
    {
      assert t[i] in tree && t[j] in tree;
    }
    assert forall f :: f in t <==> f in tree;
  }

  /**
   A tree has no problems against the manifest of another tree exactly when the two
   agree up to line endings, unless two of their files collide.
   */
  lemma VerifiesIffSameTree(d: Digest, tree: seq<File>, origin: seq<File>)
    requires IsTree(tree) && IsTree(origin)
    ensures var files := EntriesOf(d, IterFiles(origin));
            var clean := Matches(d, tree, Want(files)) && RootDigest(d, files) == RootDigest(d, EntriesOf(d, IterFiles(tree)));
            && (SameUpToLineEndings(tree, origin) ==> clean)
            && (clean ==> SameUpToLineEndings(tree, origin) || FilesCollide(d, tree, origin))
  {
    hide Canon, Sort, RootDigest, IterFiles;
    TreePermuted(origin);
    WantEntries(d, IterFiles(origin));
    var want := Want(EntriesOf(d, IterFiles(origin)));
    if SameUpToLineEndings(tree, origin) {
      forall f | f in tree
        ensures want[f.path] == EntryOf(d, f)
      {
        assert f.path in PathSet(origin);
        var g :| g in origin && g.path == f.path;
      }
      SameEntries(d, tree, origin);
    }
    if Matches(d, tree, want) && !FilesCollide(d, tree, origin) {
      forall f, g | f in tree && g in origin && f.path == g.path
        ensures Canon(f.data) == Canon(g.data)
      {
        assert want[g.path] == EntryOf(d, g);
      }
    }
  }

  /** Verify a tree against the manifest of another one, from end to end. */
  method VerifyAgainst(d: Digest, tree: seq<File>, origin: seq<File>) returns (problems: seq<Problem>)
    requires IsTree(tree) && IsTree(origin)
    ensures SameUpToLineEndings(tree, origin) ==> problems == []
    ensures problems == [] ==> SameUpToLineEndings(tree, origin) || FilesCollide(d, tree, origin)
  {
    hide SameUpToLineEndings, FilesCollide, Matches, IsKeyProblem, IsFileProblem, RootDigest, IterFiles;
    var m := ManifestFor(d, origin);
    problems := Verify(d, tree, m);
    VerifiesIffSameTree(d, tree, origin);
  }

  /** Trees that agree up to line endings have the same manifest entries. */
  lemma SameEntries(d: Digest, a: seq<File>, b: seq<File>)
    requires IsTree(a) && IsTree(b) && SameUpToLineEndings(a, b)
    ensures EntriesOf(d, IterFiles(a)) == EntriesOf(d, IterFiles(b))
  {
    hide Canon, Sort, IterFiles, StrLt;
    var x, y := IterFiles(a), IterFiles(b);
    TreePermuted(a);
    TreePermuted(b);
    var p, q := PathsOf(x), PathsOf(y);
    PathsIncreasing(a);
    PathsIncreasing(b);
    assert forall s :: s in p <==> s in PathSet(x);
    assert forall s :: s in q <==> s in PathSet(y);
    IncreasingUnique(p, q);
    assert |x| == |p| == |q| == |y|;
    forall i | 0 <= i < |x|
      ensures EntryOf(d, x[i]) == EntryOf(d, y[i])
    {
      assert p[i] == q[i];
      assert x[i] in a && y[i] in b;
    }
  }

  function PathsOf(files: seq<File>): (r: seq<string>)
    ensures |r| == |files|
    ensures forall i :: 0 <= i < |files| ==> r[i] == files[i].path
  {
    seq(|files|, i requires 0 <= i < |files| => files[i].path)
  }

  lemma PathsIncreasing(tree: seq<File>)
    requires IsTree(tree)
    ensures Increasing(PathsOf(IterFiles(tree)))
  {
    hide Sort;
    SortTree(tree);
    TreePermuted(tree);
    var t := IterFiles(tree);
    forall i, j | 0 <= i < j < |t|
      ensures StrLt(t[i].path, t[j].path)
    {
      assert PathLe(t[i], t[j]);
      StrLtTrichotomy(t[i].path, t[j].path);
    }
  }

  /** A checkout of the tree with CRLF line endings. */
  function Checkout(tree: seq<File>): (r: seq<File>)
    ensures |r| == |tree|
    ensures forall i :: 0 <= i < |tree| ==> r[i] == File(tree[i].path, ToCrlf(tree[i].data))
  {
    seq(|tree|, i requires 0 <= i < |tree| => File(tree[i].path, ToCrlf(tree[i].data)))
  }

  /** A tree without CRLF and its CRLF checkout have the same manifest. */
  lemma CheckoutKeepsManifest(d: Digest, tree: seq<File>)
    requires IsTree(tree) && forall f :: f in tree ==> !HasCrlf(f.data)
    ensures EntriesOf(d, IterFiles(Checkout(tree))) == EntriesOf(d, IterFiles(tree))
  {
    hide Canon, ToCrlf, HasCrlf, IterFiles;
    var t := Checkout(tree);
    assert IsTree(t);
    forall s
      ensures s in PathSet(t) <==> s in PathSet(tree)
    {
      if s in PathSet(tree) {
        var f :| f in tree && f.path == s;
        var i :| 0 <= i < |tree| && tree[i] == f;
        assert t[i] in t;
      }
    }
    forall f, g | f in t && g in tree && f.path == g.path
      ensures Canon(f.data) == Canon(g.data)
    {
      var i :| 0 <= i < |t| && t[i] == f;
      var j :| 0 <= j < |tree| && tree[j] == g;
      assert i == j;
      CanonUndoesCheckout(g.data);
      CanonFixed(g.data);
    }
    SameEntries(d, t, tree);
  }

  // ------------------------------------------------------------------- one root digest

  ghost predicate NewlineFree(tree: seq<File>)
  {
    forall f :: f in tree ==> forall i :: 0 <= i < |f.path| ==> f.path[i] != '\n'
  }

  lemma {:induction false} NamesAt(es: seq<Entry>, i: nat)
    requires i < |es|
    ensures Names(es)[i] == Named(es[i].path, es[i].sha)
  {
    if i > 0 {
      NamesAt(es[1..], i - 1);
    }
  }

  lemma EntriesDecodable(d: Digest, tree: seq<File>)
    requires HexDigest(d) && NewlineFree(tree) && IsTree(tree)
    ensures Decodable(EntriesOf(d, IterFiles(tree)))
  {
    hide Canon, IterFiles;
    TreePermuted(tree);
    var es := EntriesOf(d, IterFiles(tree));
    forall e | e in es
      ensures |e.sha| == 64 && forall i :: 0 <= i < |e.path| ==> e.path[i] != '\n'
    {
      var i :| 0 <= i < |es| && es[i] == e;
      var f := IterFiles(tree)[i];
      assert f in tree && IsHex64(d(Canon(f.data)));
    }
  }

  /** Trees with one root digest agree up to line endings, or a collision is at hand. */
  lemma RootIdentifiesTree(d: Digest, a: seq<File>, b: seq<File>)
    requires HexDigest(d) && IsTree(a) && IsTree(b) && NewlineFree(a) && NewlineFree(b)
    requires RootDigest(d, EntriesOf(d, IterFiles(a))) == RootDigest(d, EntriesOf(d, IterFiles(b)))
    ensures || SameUpToLineEndings(a, b)
            || FilesCollide(d, a, b)
            || BytesCollide(d, Utf8(Lines(EntriesOf(d, IterFiles(a)))), Utf8(Lines(EntriesOf(d, IterFiles(b)))))
  {
    hide Canon, IterFiles, RootDigest, Lines, Utf8, Decodable, HexDigest, NewlineFree, Names;
    EntriesDecodable(d, a);
    EntriesDecodable(d, b);
    var x, y := EntriesOf(d, IterFiles(a)), EntriesOf(d, IterFiles(b));
    RootDigestCommits(d, x, y);
    if Names(x) == Names(y) && !FilesCollide(d, a, b) {
      SameNamesSameTree(d, a, b);
    }
  }

  lemma SameNamesSameTree(d: Digest, a: seq<File>, b: seq<File>)
    requires IsTree(a) && IsTree(b) && !FilesCollide(d, a, b)
    requires Names(EntriesOf(d, IterFiles(a))) == Names(EntriesOf(d, IterFiles(b)))
    ensures SameUpToLineEndings(a, b)
  {
    hide Canon, IterFiles, Names;
    TreePermuted(a);
    TreePermuted(b);
    var p, q := IterFiles(a), IterFiles(b);
    var x, y := EntriesOf(d, p), EntriesOf(d, q);
    assert |p| == |Names(x)| == |Names(y)| == |q|;
    forall i | 0 <= i < |p|
      ensures p[i].path == q[i].path && Canon(p[i].data) == Canon(q[i].data)
    {
      NamesAt(x, i);
      NamesAt(y, i);
      assert p[i] in a && q[i] in b;
    }
    forall s
      ensures s in PathSet(p) <==> s in PathSet(q)
    {
      if s in PathSet(p) {
        var f :| f in p && f.path == s;
        var i :| 0 <= i < |p| && p[i] == f;
        assert q[i] in q;
      }
      if s in PathSet(q) {
        var f :| f in q && f.path == s;
        var i :| 0 <= i < |q| && q[i] == f;
        assert p[i] in p;
      }
    }
    forall f, g | f in a && g in b && f.path == g.path
      ensures Canon(f.data) == Canon(g.data)
    {
      assert f in p && g in q;
      var i :| 0 <= i < |p| && p[i] == f;
      var j :| 0 <= j < |q| && q[j] == g;
      assert q[i].path == q[j].path;
    }
  }
}
