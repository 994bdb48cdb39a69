/**
 * The byte stream hashed for a package: every file as its length-prefixed name and its
 * length-prefixed content, in the order of the relative paths.
 */
module TreeFraming {
  import opened Wrappers
  import opened Arithmetic

  type Bytes = seq<Byte>

  datatype Error = NotAFileOrDirectory | HasSymlink(path: string) | HasSpecial(path: string) | TooLong

  datatype Kind = Symlink | Regular(content: Bytes) | Folder | Special

  datatype Entry = Entry(path: string, kind: Kind)

  /** What the path names; `children` is one enumeration of everything below a directory. */
  datatype Package = Single(content: Bytes) | Directory(children: seq<Entry>) | Neither

  const CHUNK: nat := 1024 * 1024
  const LIMIT: nat := 0x1_0000_0000_0000_0000

  // ---- UTF-8 ----

  function EncodeChar(c: char): Bytes {
    var n := c as int;
    if n < 0x80 then [n]
    else if n < 0x800 then [0xC0 + n / 64, 0x80 + n % 64]
    else if n < 0x1_0000 then [0xE0 + n / 4096, 0x80 + n / 64 % 64, 0x80 + n % 64]
    else [0xF0 + n / 262144, 0x80 + n / 4096 % 64, 0x80 + n / 64 % 64, 0x80 + n % 64]
  }

  /** One code point of each length. */
  lemma EncodedExamples()
    ensures EncodeChar('A') == [0x41] && EncodeChar('\U{E9}') == [0xC3, 0xA9]
    ensures EncodeChar('\U{20AC}') == [0xE2, 0x82, 0xAC] && EncodeChar('\U{10348}') == [0xF0, 0x90, 0x8D, 0x88]
  {
  }

  function Encode(s: string): Bytes {
    if s == "" then [] else EncodeChar(s[0]) + Encode(s[1..])
  }

  /** The first byte of an encoded character tells how many follow, so no code begins another. */
  lemma EncodeCharPrefix(c: char, d: char, x: Bytes, y: Bytes)
    requires EncodeChar(c) + x == EncodeChar(d) + y
    ensures c == d && x == y
  {
    var u, v := EncodeChar(c), EncodeChar(d);
    assert u[0] == (u + x)[0] && v[0] == (v + y)[0];
    assert |u| == |v|;
    assert u == (u + x)[..|u|] && v == (v + y)[..|v|];
    assert x == (u + x)[|u|..] && y == (v + y)[|v|..];
    Digits(c as int);
    Digits(d as int);
  }

  /** The six-bit digits rebuild the code point. */
  lemma Digits(n: nat)
    ensures n == 64 * (n / 64) + n % 64
    ensures n / 64 == 64 * (n / 4096) + n / 64 % 64
    ensures n / 4096 == 64 * (n / 262144) + n / 4096 % 64
  {
  }

  lemma {:induction false} EncodeInjective(a: string, b: string)
    requires Encode(a) == Encode(b)
    ensures a == b
  {
    if a != "" && b != "" {
      EncodeCharPrefix(a[0], b[0], Encode(a[1..]), Encode(b[1..]));
      EncodeInjective(a[1..], b[1..]);
      assert a == [a[0]] + a[1..] && b == [b[0]] + b[1..];
    }
  }

  // ---- Fixed-width lengths ----

  function Pow256(k: nat): (r: nat)
    ensures r > 0
  {
    if k == 0 then 1 else 256 * Pow256(k - 1)
  }

  /** `k` bytes, the least significant first. */
  function Pack(k: nat, n: nat): (r: Bytes)
    ensures |r| == k
  {
    if k == 0 then [] else [n % 256] + Pack(k - 1, n / 256)
  }

  function Unpack(s: Bytes): nat {
    if s == [] then 0 else s[0] + 256 * Unpack(s[1..])
  }

  lemma {:induction false} UnpackPack(k: nat, n: nat)
    requires n < Pow256(k)
    ensures Unpack(Pack(k, n)) == n
  {
    if k > 0 {
      UnpackPack(k - 1, n / 256);
      assert Pack(k, n)[1..] == Pack(k - 1, n / 256);
    }
  }

  lemma {:induction false} PackUnpack(s: Bytes)
    ensures Unpack(s) < Pow256(|s|) && Pack(|s|, Unpack(s)) == s
  {
    if s != [] {
      PackUnpack(s[1..]);
      assert Unpack(s) % 256 == s[0] && Unpack(s) / 256 == Unpack(s[1..]);
      assert s == [s[0]] + s[1..];
    }
  }

  /** Byte `i` is digit `i` of the number in base 256. */
  lemma {:induction false} PackDigits(k: nat, n: nat, i: nat)
    requires i < k
    ensures Pack(k, n)[i] == n / Pow256(i) % 256
  {
    if i > 0 {
      PackDigits(k - 1, n / 256, i - 1);
      DivideTwice(n, Pow256(i - 1));
    }
  }

  lemma DivideTwice(n: nat, m: nat)
    requires m > 0
    ensures n / 256 / m == n / (256 * m)
  {
    var q, r := n / 256 / m, n / 256 % m;
    assert n / 256 == q * m + r;
    assert n == 256 * (q * m + r) + n % 256;
    assert 256 * (q * m) == q * (256 * m);
    Quotient(n, 256 * m, q, 256 * r + n % 256);
  }

  lemma LimitIsEightBytes()
    ensures Pow256(8) == LIMIT
  {
  }

  // ---- Framing and its inverse ----

  predicate Framable(file: (Bytes, Bytes)) {
    |file.0| < LIMIT && |file.1| < LIMIT
  }

  /** One length-prefixed string. */
  function Chunk(s: Bytes): (r: Bytes)
    ensures |r| == 8 + |s|
  {
    Pack(8, |s|) + s
  }

  /** The stream of a list of named contents. */
  function Frames(files: seq<(Bytes, Bytes)>): Bytes {
    if files == [] then []
    else Frames(files[..|files| - 1]) + Chunk(files[|files| - 1].0) + Chunk(files[|files| - 1].1)
  }

  /** Takes one length-prefixed string off the front. */
  function Take(s: Bytes): (r: Result<(Bytes, Bytes), Error>)
    ensures r.Ok? ==> |r.value.1| < |s|
  {
    if |s| < 8 || |s| - 8 < Unpack(s[..8]) then Err(TooLong)
    else Ok((s[8..8 + Unpack(s[..8])], s[8 + Unpack(s[..8])..]))
  }

  /** The decoder: the files of a stream, if it is one. */
  function Parse(s: Bytes): Result<seq<(Bytes, Bytes)>, Error>
    decreases |s|
  {
    if s == [] then Ok([])
    else
      match Take(s)
      case Err(e) => Err(e)
      case Ok((name, tail)) =>
        match Take(tail)
        case Err(e) => Err(e)
        case Ok((content, rest)) =>
          match Parse(rest)
          case Err(e) => Err(e)
          case Ok(files) => Ok([(name, content)] + files)
  }

  lemma TakeChunk(s: Bytes, rest: Bytes)
    requires |s| < LIMIT
    ensures Take(Chunk(s) + rest) == Ok((s, rest))
  {
    LimitIsEightBytes();
    UnpackPack(8, |s|);
    var t := Chunk(s) + rest;
    assert t[..8] == Pack(8, |s|);
    assert t[8..8 + |s|] == s && t[8 + |s|..] == rest;
  }

  lemma ChunkTake(s: Bytes)
    requires Take(s).Ok?
    ensures var (head, rest) := Take(s).value; |head| < LIMIT && Chunk(head) + rest == s
  {
    LimitIsEightBytes();
    PackUnpack(s[..8]);
    assert s == s[..8] + s[8..8 + Unpack(s[..8])] + s[8 + Unpack(s[..8])..];
  }

  lemma {:induction false} FramesCons(file: (Bytes, Bytes), files: seq<(Bytes, Bytes)>)
    ensures Frames([file] + files) == Chunk(file.0) + (Chunk(file.1) + Frames(files))
    decreases |files|
  {
    var all := [file] + files;
    if files == [] {
      assert all == [file] && all[..0] == [];
      assert Frames(all) == [] + Chunk(file.0) + Chunk(file.1);
      assert Chunk(file.1) + [] == Chunk(file.1);
    } else {
      var init, last := files[..|files| - 1], files[|files| - 1];
      FramesCons(file, init);
      assert all[..|all| - 1] == [file] + init;
      Reassociate(Chunk(file.0), Chunk(file.1), Frames(init), Chunk(last.0), Chunk(last.1));
    }
  }

  lemma Reassociate(a: Bytes, b: Bytes, c: Bytes, d: Bytes, e: Bytes)
    ensures (a + (b + c)) + d + e == a + (b + (c + d + e))
  {
  }

  /** Decoding what was framed gives it back. */
  lemma {:induction false} ParseFrames(files: seq<(Bytes, Bytes)>)
    requires forall i :: 0 <= i < |files| ==> Framable(files[i])
    ensures Parse(Frames(files)) == Ok(files)
    decreases |files|
  {
    if files != [] {
      var rest := files[1..];
      assert files == [files[0]] + rest;
      FramesCons(files[0], rest);
      TakeChunk(files[0].0, Chunk(files[0].1) + Frames(rest));
      TakeChunk(files[0].1, Frames(rest));
      ParseFrames(rest);
    }
  }

  /** Only framed streams decode, and framing what was decoded gives the stream back. */
  lemma {:induction false} FramesParse(s: Bytes)
    requires Parse(s).Ok?
    ensures Frames(Parse(s).value) == s && forall i :: 0 <= i < |Parse(s).value| ==> Framable(Parse(s).value[i])
    decreases |s|
  {
    if s != [] {
      ChunkTake(s);
      var (name, tail) := Take(s).value;
      ChunkTake(tail);
      var (content, rest) := Take(tail).value;
      FramesParse(rest);
      FramesCons((name, content), Parse(rest).value);
    }
  }

  // ---- The order of the paths ----

  /** Strictly before, by code point. */
  predicate Before(a: string, b: string) {
    b != "" && (a == "" || a[0] < b[0] || (a[0] == b[0] && Before(a[1..], b[1..])))
  }

  lemma {:induction false} BeforeTotal(a: string, b: string)
    ensures Before(a, b) || a == b || Before(b, a)
    ensures !(Before(a, b) && Before(b, a)) && (a == b ==> !Before(a, b))
  {
    if a != "" && b != "" {
      BeforeTotal(a[1..], b[1..]);
      assert a == [a[0]] + a[1..] && b == [b[0]] + b[1..];
    }
  }

  lemma {:induction false} BeforeTransitive(a: string, b: string, c: string)
    requires Before(a, b) && Before(b, c)
    ensures Before(a, c)
  {
    if a != "" && a[0] == b[0] == c[0] {
      BeforeTransitive(a[1..], b[1..], c[1..]);
    }
  }

  /** Paths are compared at the first place where they differ; a proper prefix comes first. */
  ghost predicate FirstDifference(a: string, b: string, k: nat) {
    k <= |a| && k < |b| && a[..k] == b[..k] && (k == |a| || a[k] < b[k])
  }

  lemma {:induction false} BeforeMeans(a: string, b: string)
    ensures Before(a, b) <==> exists k :: FirstDifference(a, b, k)
  {
    if b == "" {
    } else if a == "" {
      assert FirstDifference(a, b, 0);
    } else if a[0] < b[0] {
      assert FirstDifference(a, b, 0);
    } else {
      BeforeMeans(a[1..], b[1..]);
      if Before(a, b) {
        var k: nat :| FirstDifference(a[1..], b[1..], k);
        assert a[..k + 1] == [a[0]] + a[1..][..k] && b[..k + 1] == [b[0]] + b[1..][..k];
        assert FirstDifference(a, b, k + 1);
      }
      if k: nat :| FirstDifference(a, b, k) {
        assert k > 0 && a[..k][0] == a[0] && b[..k][0] == b[0];
        assert a[1..][..k - 1] == a[..k][1..] && b[1..][..k - 1] == b[..k][1..];
        assert FirstDifference(a[1..], b[1..], k - 1);
      }
    }
  }

  ghost predicate StrictlySorted(entries: seq<Entry>) {
    forall i, j :: 0 <= i < j < |entries| ==> Before(entries[i].path, entries[j].path)
  }

  ghost predicate DistinctPaths(entries: seq<Entry>) {
    forall i, j :: 0 <= i < j < |entries| ==> entries[i].path != entries[j].path
  }

  function Insert(e: Entry, sorted: seq<Entry>): (r: seq<Entry>)
    ensures forall x :: x in r <==> x == e || x in sorted
  {
    if sorted == [] || !Before(sorted[0].path, e.path) then [e] + sorted
    else
      assert sorted == [sorted[0]] + sorted[1..];
      [sorted[0]] + Insert(e, sorted[1..])
  }

  function SortByPath(entries: seq<Entry>): (r: seq<Entry>)
    ensures forall x :: x in r <==> x in entries
  {
    if entries == [] then []
    else
      assert entries == [entries[0]] + entries[1..];
      Insert(entries[0], SortByPath(entries[1..]))
  }

  lemma {:induction false} InsertSorted(e: Entry, sorted: seq<Entry>)
    requires StrictlySorted(sorted) && forall i :: 0 <= i < |sorted| ==> sorted[i].path != e.path
    ensures StrictlySorted(Insert(e, sorted))
  {
    var r := Insert(e, sorted);
    if sorted != [] {
      BeforeTotal(sorted[0].path, e.path);
      if Before(sorted[0].path, e.path) {
        InsertSorted(e, sorted[1..]);
        forall j | 0 < j < |r|
          ensures Before(sorted[0].path, r[j].path)
        {
          assert r[j] in Insert(e, sorted[1..]);
        }
      } else {
        forall j | 1 < j < |r|
          ensures Before(e.path, r[j].path)
        {
          BeforeTransitive(e.path, sorted[0].path, r[j].path);
        }
      }
    }
  }

  lemma {:induction false} SortSorted(entries: seq<Entry>)
    requires DistinctPaths(entries)
    ensures StrictlySorted(SortByPath(entries))
  {
    if entries != [] {
      var rest := SortByPath(entries[1..]);
      SortSorted(entries[1..]);
      forall i | 0 <= i < |rest|
        ensures rest[i].path != entries[0].path
      {
        assert rest[i] in entries[1..];
      }
      InsertSorted(entries[0], rest);
    }
  }

  lemma TailElements(a: seq<Entry>)
    requires StrictlySorted(a) && a != []
    ensures forall x :: x in a[1..] <==> x in a && x != a[0]
  {
    assert a == [a[0]] + a[1..];
    BeforeTotal(a[0].path, a[0].path);
  }

  /** A strictly sorted list is determined by its elements. */
  lemma {:induction false} SortedUnique(a: seq<Entry>, b: seq<Entry>)
    requires StrictlySorted(a) && StrictlySorted(b) && forall x :: x in a <==> x in b
    ensures a == b
  {
    assert a != [] ==> a[0] in b;
    assert b != [] ==> b[0] in a;
    if a != [] && b != [] {
      assert a == [a[0]] + a[1..] && b == [b[0]] + b[1..];
      BeforeTotal(a[0].path, b[0].path);
      assert a[0] in b && b[0] in a;
      assert a[0] == b[0];
      TailElements(a);
      TailElements(b);
      SortedUnique(a[1..], b[1..]);
    }
  }

  // ---- The files of a package ----

  /** Keeps the files, skips the directories and refuses anything else. */
  function Walk(entries: seq<Entry>): Result<seq<Entry>, Error> {
    if entries == [] then Ok([])
    else
      match entries[0].kind
      case Symlink => Err(HasSymlink(entries[0].path))
      case Special => Err(HasSpecial(entries[0].path))
      case Folder => Walk(entries[1..])
      case Regular(_) =>
        match Walk(entries[1..])
        case Err(e) => Err(e)
        case Ok(files) => Ok([entries[0]] + files)
  }

  function TreeFiles(package: Package): Result<seq<Entry>, Error> {
    match package
    case Neither => Err(NotAFileOrDirectory)
    case Single(content) => Ok([Entry(".", Regular(content))])
    case Directory(children) => Walk(SortByPath(children))
  }

  /** What a file system guarantees of an enumeration: paths below the directory, each once. */
  ghost predicate WellFormed(package: Package) {
    package.Directory? ==>
      && DistinctPaths(package.children)
      && forall e :: e in package.children ==> e.path != "."
  }

  /** The files of a package as a set, whatever the enumeration. */
  ghost predicate HasFile(package: Package, file: Entry) {
    match package
    case Neither => false
    case Single(content) => file == Entry(".", Regular(content))
    case Directory(children) => file.kind.Regular? && file in children
  }

  lemma {:induction false} WalkKeepsFiles(entries: seq<Entry>)
    requires StrictlySorted(entries)
    ensures Walk(entries).Ok? <==> forall e :: e in entries ==> e.kind.Folder? || e.kind.Regular?
    ensures Walk(entries).Ok? ==>
              && StrictlySorted(Walk(entries).value)
              && forall e :: e in Walk(entries).value <==> e in entries && e.kind.Regular?
  {
    if entries != [] {
      assert entries == [entries[0]] + entries[1..];
      WalkKeepsFiles(entries[1..]);
      if Walk(entries).Ok? && entries[0].kind.Regular? {
        var files := Walk(entries).value;
        forall j | 0 < j < |files|
          ensures Before(files[0].path, files[j].path)
        {
          assert files[j] in Walk(entries[1..]).value;
        }
      }
    }
  }

  /** The entry that makes a walk fail: the first one in path order that is neither a directory nor a file. */
  ghost predicate RefusedAt(entries: seq<Entry>, i: nat, error: Error) {
    && i < |entries|
    && (forall j :: 0 <= j < i ==> entries[j].kind.Folder? || entries[j].kind.Regular?)
    && ((entries[i].kind.Symlink? && error == HasSymlink(entries[i].path))
        || (entries[i].kind.Special? && error == HasSpecial(entries[i].path)))
  }

  lemma {:induction false} WalkRefuses(entries: seq<Entry>) returns (i: nat)
    requires Walk(entries).Err?
    ensures RefusedAt(entries, i, Walk(entries).error)
  {
    if entries[0].kind.Symlink? || entries[0].kind.Special? {
      i := 0;
    } else {
      i := WalkRefuses(entries[1..]);
      i := i + 1;
    }
  }

  /** The listed files are exactly the package's, in path order; only links and special entries are refused. */
  lemma TreeFilesAre(package: Package)
    requires WellFormed(package)
    ensures TreeFiles(package).Ok? <==>
              && !package.Neither?
              && (package.Directory? ==> forall e :: e in package.children ==> e.kind.Folder? || e.kind.Regular?)
    ensures TreeFiles(package).Ok? ==>
              && StrictlySorted(TreeFiles(package).value)
              && forall e :: e in TreeFiles(package).value <==> HasFile(package, e)
  {
    if package.Directory? {
      SortSorted(package.children);
      WalkKeepsFiles(SortByPath(package.children));
    }
  }

  /** Two enumerations of one directory give the same files, or the same refusal. */
  lemma EnumerationOrderIrrelevant(first: seq<Entry>, second: seq<Entry>)
    requires DistinctPaths(first) && DistinctPaths(second)
    requires forall e :: e in first <==> e in second
    ensures TreeFiles(Directory(first)) == TreeFiles(Directory(second))
    ensures Receipt(Directory(first)) == Receipt(Directory(second))
  {
    SortSorted(first);
    SortSorted(second);
    SortedUnique(SortByPath(first), SortByPath(second));
  }

  // ---- The receipt ----

  function Named(files: seq<Entry>): (r: seq<(Bytes, Bytes)>)
    requires forall i :: 0 <= i < |files| ==> files[i].kind.Regular?
    ensures |r| == |files|
    ensures forall i :: 0 <= i < |files| ==> r[i] == (Encode(files[i].path), files[i].kind.content)
  {
    seq(|files|, i requires 0 <= i < |files| => (Encode(files[i].path), files[i].kind.content))
  }

  function Total(files: seq<(Bytes, Bytes)>): nat {
    if files == [] then 0 else Total(files[..|files| - 1]) + |files[|files| - 1].1|
  }

  lemma {:induction false} WalkIsRegular(entries: seq<Entry>)
    ensures Walk(entries).Ok? ==> forall i :: 0 <= i < |Walk(entries).value| ==> Walk(entries).value[i].kind.Regular?
  {
    if entries != [] {
      WalkIsRegular(entries[1..]);
    }
  }

  lemma TreeFilesRegular(package: Package)
    ensures TreeFiles(package).Ok? ==>
              forall i :: 0 <= i < |TreeFiles(package).value| ==> TreeFiles(package).value[i].kind.Regular?
  {
    if package.Directory? {
      WalkIsRegular(SortByPath(package.children));
    }
  }

  /** The total size and the hashed stream; a length that does not fit eight bytes is refused. */
  function Receipt(package: Package): Result<(nat, Bytes), Error> {
    TreeFilesRegular(package);
    match TreeFiles(package)
    case Err(e) => Err(e)
    case Ok(files) => Framed(Named(files))
  }

  function Framed(named: seq<(Bytes, Bytes)>): Result<(nat, Bytes), Error> {
    if forall i :: 0 <= i < |named| ==> Framable(named[i]) then Ok((Total(named), Frames(named)))
    else Err(TooLong)
  }

  method TreeReceipt(package: Package) returns (r: Result<(nat, Bytes), Error>)
    ensures r == Receipt(package)
  {
    TreeFilesRegular(package);
    match TreeFiles(package)
    case Err(e) => r := Err(e);
    case Ok(files) => r := DigestFiles(Named(files));
  }

  /** The loop over the files, feeding the digest piece by piece. */
  method DigestFiles(named: seq<(Bytes, Bytes)>) returns (r: Result<(nat, Bytes), Error>)
    ensures r == Framed(named)
  {
    var total, digest := 0, [];
    for i := 0 to |named|
      invariant total == Total(named[..i]) && digest == Frames(named[..i])
      invariant forall j :: 0 <= j < i ==> Framable(named[j])
    {
      var (name, content) := named[i];
      if !Framable((name, content)) {
        return Err(TooLong);
      }
      total := total + |content|;
      digest := FeedFile(digest, name, content);
      FramesSnoc(named, i);
    }
    assert named[..|named|] == named;
    r := Ok((total, digest));
  }

  lemma FramesSnoc(named: seq<(Bytes, Bytes)>, i: nat)
    requires i < |named|
    ensures Frames(named[..i + 1]) == Frames(named[..i]) + Chunk(named[i].0) + Chunk(named[i].1)
    ensures Total(named[..i + 1]) == Total(named[..i]) + |named[i].1|
  {
    assert named[..i + 1][..i] == named[..i];
  }

  method FeedFile(digest: Bytes, name: Bytes, content: Bytes) returns (r: Bytes)
    ensures r == digest + Chunk(name) + Chunk(content)
  {
    r := digest + Pack(8, |name|) + name;
    r := FeedContent(r + Pack(8, |content|), content);
  }

  method FeedContent(digest: Bytes, content: Bytes) returns (r: Bytes)
    ensures r == digest + content
  {
    r := digest;
    var at := 0;
    while at < |content|
      invariant at <= |content| && r == digest + content[..at]
    {
      var end := if at + CHUNK < |content| then at + CHUNK else |content|;
      r := r + content[at..end];
      assert content[..end] == content[..at] + content[at..end];
      at := end;
    }
    assert content[..at] == content;
  }

  lemma {:induction false} NamedInjective(a: seq<Entry>, b: seq<Entry>)
    requires forall i :: 0 <= i < |a| ==> a[i].kind.Regular?
    requires forall i :: 0 <= i < |b| ==> b[i].kind.Regular?
    requires Named(a) == Named(b)
    ensures a == b
  {
    forall i | 0 <= i < |a|
      ensures a[i] == b[i]
    {
      assert Named(a)[i] == Named(b)[i];
      EncodeInjective(a[i].path, b[i].path);
    }
  }

  /**
   * The stream determines the tree: two accepted packages have the same stream exactly when they
   * have the same files with the same contents. A single file never shares its stream with a
   * directory, and empty directories leave no trace.
   */
  lemma StreamDeterminesTree(p: Package, q: Package)
    requires WellFormed(p) && WellFormed(q) && Receipt(p).Ok? && Receipt(q).Ok?
    ensures Receipt(p).value.1 == Receipt(q).value.1 <==> forall file :: HasFile(p, file) <==> HasFile(q, file)
    ensures Receipt(p).value.1 == Receipt(q).value.1 ==> Receipt(p) == Receipt(q)
    ensures p.Single? && q.Directory? ==> Receipt(p).value.1 != Receipt(q).value.1
  {
    TreeFilesRegular(p);
    TreeFilesRegular(q);
    TreeFilesAre(p);
    TreeFilesAre(q);
    var a, b := TreeFiles(p).value, TreeFiles(q).value;
    ParseFrames(Named(a));
    ParseFrames(Named(b));
    if Frames(Named(a)) == Frames(Named(b)) {
      NamedInjective(a, b);
    }
    if forall file :: HasFile(p, file) <==> HasFile(q, file) {
      SortedUnique(a, b);
    }
    if p.Single? && q.Directory? {
      assert HasFile(p, Entry(".", Regular(p.content))) && !HasFile(q, Entry(".", Regular(p.content)));
    }
  }

  /** The total adds up over the files. */
  lemma {:induction false} TotalLaw(files: seq<(Bytes, Bytes)>, more: seq<(Bytes, Bytes)>)
    ensures Total(files + more) == Total(files) + Total(more)
  {
    if more == [] {
      assert files + more == files;
    } else {
      var n := |more| - 1;
      TotalLaw(files, more[..n]);
      assert (files + more)[..|files| + n] == files + more[..n];
    }
  }

  /** The stream of a single file: the length of its name, a dot, the length of the content and the content. */
  lemma {:induction false} SingleFileStream(content: Bytes)
    requires |content| < LIMIT
    ensures Receipt(Single(content)) == Ok((|content|, Pack(8, 1) + [0x2E] + (Pack(8, |content|) + content)))
  {
    SingleNamed(content);
    SingleFramed([0x2E], content);
  }

  lemma SingleFramed(name: Bytes, content: Bytes)
    requires |name| < LIMIT && |content| < LIMIT
    ensures Framed([(name, content)]) == Ok((|content|, Chunk(name) + Chunk(content)))
  {
    var named := [(name, content)];
    assert named[..1] == named && named[..0] == [];
    FramesSnoc(named, 0);
    assert Frames([]) + Chunk(name) == Chunk(name);
    assert forall i :: 0 <= i < |named| ==> Framable(named[i]);
  }

  lemma SingleNamed(content: Bytes)
    ensures Named([Entry(".", Regular(content))]) == [([0x2E], content)]
  {
    DotEncoded();
  }

  lemma DotEncoded()
    ensures Encode(".") == [0x2E]
  {
    assert "."[1..] == "";
    assert EncodeChar('.') == [0x2E];
    assert [0x2E] + [] == [0x2E];
  }

  lemma LengthOfOne()
    ensures Pack(8, 1) == [1, 0, 0, 0, 0, 0, 0, 0]
  {
    ZeroBytes(7);
    assert Pack(8, 1) == [1] + Pack(7, 0);
  }

  lemma {:induction false} ZeroBytes(k: nat)
    ensures Pack(k, 0) == seq(k, i => 0)
  {
    if k > 0 {
      ZeroBytes(k - 1);
      assert [0] + seq(k - 1, i => 0) == seq(k, i => 0);
    }
  }
}
