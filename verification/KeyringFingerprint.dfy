/**
 The fingerprint of a keyring directory (`keys/keyring_provider.go`): the names and content
 hashes of its entries, sorted and joined into one string. A file's content stands for
 itself by its hash.
 */
module KeyringFingerprint {
  datatype Entry = SubDir(name: string) | File(name: string, digest: string)

  // What one read of the directory lists.
  type Directory = seq<Entry>

  predicate IsDigest(s: string) {
    |s| == 64 && forall i :: 0 <= i < 64 ==> '0' <= s[i] <= '9' || 'a' <= s[i] <= 'f'
  }

  /** Names are distinct and not empty, hashes are hashes. */
  ghost predicate WellFormed(d: Directory) {
    && (forall i, j :: 0 <= i < j < |d| ==> d[i].name != d[j].name)
    && (forall i :: 0 <= i < |d| ==> d[i].name != "" && (d[i].File? ==> IsDigest(d[i].digest)))
  }

  function Line(e: Entry): string {
    match e
    case SubDir(name) => "dir:" + name
    case File(name, digest) => name + ":" + digest
  }

  function Lines(d: Directory): seq<string> {
    seq(|d|, i requires 0 <= i < |d| => Line(d[i]))
  }

  /** Lexicographic order. */
  predicate Leq(a: string, b: string) {
    a == "" || (b != "" && (a[0] < b[0] || (a[0] == b[0] && Leq(a[1..], b[1..]))))
  }

  lemma LeqTotal(a: string, b: string)
    ensures Leq(a, b) || Leq(b, a)
  {
  }

  predicate Sorted(s: seq<string>) {
    forall i :: 0 <= i < |s| - 1 ==> Leq(s[i], s[i + 1])
  }

  function Insert(x: string, s: seq<string>): seq<string> {
    if s == [] then [x] else if Leq(x, s[0]) then [x] + s else [s[0]] + Insert(x, s[1..])
  }

  function Sort(s: seq<string>): seq<string> {
    if s == [] then [] else Insert(s[0], Sort(s[1..]))
  }

  lemma {:induction false} InsertKeeps(x: string, s: seq<string>)
    ensures multiset(Insert(x, s)) == multiset(s) + multiset{x}
  {
    if s != [] && !Leq(x, s[0]) {
      InsertKeeps(x, s[1..]);
      assert s == [s[0]] + s[1..];
    }
  }

  lemma {:induction false} InsertSorts(x: string, s: seq<string>)
    requires Sorted(s)
    ensures Sorted(Insert(x, s))
    ensures Insert(x, s)[0] == x || (s != [] && Insert(x, s)[0] == s[0])
  {
    if s != [] && !Leq(x, s[0]) {
      LeqTotal(x, s[0]);
      var rest := s[1..];
      assert forall i :: 0 <= i < |rest| ==> rest[i] == s[i + 1];
      InsertSorts(x, rest);
      ConsSorts(s[0], Insert(x, rest));
    } else if s != [] {
      ConsSorts(x, s);
    }
  }

  lemma ConsSorts(x: string, s: seq<string>)
    requires Sorted(s) && (s != [] ==> Leq(x, s[0]))
    ensures Sorted([x] + s)
  {
    assert forall i :: 0 < i < |s| ==> ([x] + s)[i] == s[i - 1] && ([x] + s)[i + 1] == s[i];
  }

  /** Sorting gives the same lines, in order. */
  lemma {:induction false} SortSorts(s: seq<string>)
    ensures Sorted(Sort(s)) && multiset(Sort(s)) == multiset(s)
  {
    if s != [] {
      SortSorts(s[1..]);
      InsertSorts(s[0], Sort(s[1..]));
      InsertKeeps(s[0], Sort(s[1..]));
      assert s == [s[0]] + s[1..];
    }
  }

  function Join(lines: seq<string>): string {
    if lines == [] then "" else if |lines| == 1 then lines[0] else lines[0] + "\n" + Join(lines[1..])
  }

  function Decimal(n: nat): (r: string)
    ensures '\n' !in r && r != ""
  {
    if n < 10 then [(n as char) + '0'] else Decimal(n / 10) + [((n % 10) as char) + '0']
  }

  function Fingerprint(d: Directory): (r: string)
    ensures r != ""
  {
    Decimal(|d|) + "\n" + Join(Sort(Lines(d)))
  }

  // -- Equal fingerprints mean equal directories --

  /** The text before the first newline and the text after it. */
  lemma {:induction false} FirstBreak(a: string, x: string, b: string, y: string)
    requires '\n' !in a && '\n' !in b
    requires a + "\n" + x == b + "\n" + y
    ensures a == b && x == y
  {
    var s := a + "\n" + x;
    assert s[|a|] == '\n' && s[|b|] == '\n';
    assert forall i :: 0 <= i < |a| ==> s[i] == a[i];
    assert forall i :: 0 <= i < |b| ==> s[i] == b[i];
    assert |a| == |b|;
    assert s[..|a|] == a == b;
    assert s[|a| + 1..] == x == y;
  }

  ghost predicate AreLines(s: seq<string>) {
    forall i :: 0 <= i < |s| ==> s[i] != "" && '\n' !in s[i]
  }

  lemma JoinStarts(s: seq<string>)
    requires AreLines(s) && s != []
    ensures Join(s) != ""
    ensures |s| == 1 ==> '\n' !in Join(s)
    ensures |s| > 1 ==> '\n' in Join(s)
  {
    if |s| > 1 {
      assert Join(s)[|s[0]|] == '\n';
    }
  }

  /** Joining loses nothing: the lines can be read back. */
  lemma {:induction false} JoinIsInjective(a: seq<string>, b: seq<string>)
    requires AreLines(a) && AreLines(b) && Join(a) == Join(b)
    ensures a == b
  {
    if a != [] { JoinStarts(a); }
    if b != [] { JoinStarts(b); }
    if |a| > 1 && |b| > 1 {
      FirstBreak(a[0], Join(a[1..]), b[0], Join(b[1..]));
      JoinIsInjective(a[1..], b[1..]);
      assert a == [a[0]] + a[1..] && b == [b[0]] + b[1..];
    }
  }

  /** A file whose line reads as a sub-directory's. */
  predicate LooksLikeSubDir(e: Entry) {
    e.File? && (e.name == "dir" || "dir:" <= e.name)
  }

  /** A name that cannot be read as part of the format: no newline, and no file called `dir` or `dir:…`. */
  predicate IsPlain(e: Entry) {
    '\n' !in e.name && !LooksLikeSubDir(e)
  }

  /** What the file system and the hash guarantee of an entry. */
  predicate IsEntry(e: Entry) {
    e.name != "" && (e.File? ==> IsDigest(e.digest))
  }

  lemma LineIsInjective(a: Entry, b: Entry)
    requires IsPlain(a) && IsPlain(b) && Line(a) == Line(b)
    requires (a.File? ==> IsDigest(a.digest)) && (b.File? ==> IsDigest(b.digest))
    ensures a == b
  {
    if a.File? && b.File? {
      assert Line(a)[|a.name| + 1..] == a.digest && Line(b)[|b.name| + 1..] == b.digest;
      assert Line(a)[..|a.name|] == a.name && Line(b)[..|b.name|] == b.name;
    } else if a.File? {
      FileLineIsNoDirLine(a, b);
    } else if b.File? {
      FileLineIsNoDirLine(b, a);
    } else {
      assert Line(a)[4..] == a.name && Line(b)[4..] == b.name;
    }
  }

  lemma FileLineIsNoDirLine(f: Entry, d: Entry)
    requires f.File? && d.SubDir? && !LooksLikeSubDir(f)
    ensures Line(f) != Line(d)
  {
    if |f.name| < 3 {
      assert Line(f)[|f.name|] == ':' && Line(d)[|f.name|] == "dir"[|f.name|];
    } else if |f.name| == 3 {
      assert Line(f)[..3] == f.name && Line(d)[..3] == "dir";
    } else {
      assert Line(f)[..4] == f.name[..4] && Line(d)[..4] == "dir:";
    }
  }

  lemma LinesAreLines(d: Directory)
    requires WellFormed(d) && forall i :: 0 <= i < |d| ==> IsPlain(d[i])
    ensures AreLines(Lines(d))
  {
    forall i | 0 <= i < |d| ensures Lines(d)[i] != "" && '\n' !in Lines(d)[i] {
      LineIsALine(d[i]);
    }
  }

  lemma LineIsALine(e: Entry)
    requires IsPlain(e) && e.name != "" && (e.File? ==> IsDigest(e.digest))
    ensures Line(e) != "" && '\n' !in Line(e)
  {
  }

  lemma ReorderedAreLines(a: seq<string>, b: seq<string>)
    requires AreLines(a) && multiset(a) == multiset(b)
    ensures AreLines(b)
  {
    forall i | 0 <= i < |b| ensures b[i] != "" && '\n' !in b[i] {
      assert b[i] in multiset(b);
      assert b[i] in a;
    }
  }

  /** The lines of a plain directory are lines, before sorting and after. */
  lemma SortedAreLines(d: Directory)
    requires WellFormed(d) && forall i :: 0 <= i < |d| ==> IsPlain(d[i])
    ensures AreLines(Sort(Lines(d)))
  {
    LinesAreLines(d);
    SortSorts(Lines(d));
    ReorderedAreLines(Lines(d), Sort(Lines(d)));
  }

  lemma EntryIsInBoth(d: Directory, f: Directory, i: nat)
    requires WellFormed(d) && WellFormed(f)
    requires forall j :: 0 <= j < |d| ==> IsPlain(d[j])
    requires forall j :: 0 <= j < |f| ==> IsPlain(f[j])
    requires multiset(Lines(d)) == multiset(Lines(f)) && i < |d|
    ensures d[i] in f
  {
    assert Lines(d)[i] in multiset(Lines(d));
    assert Line(d[i]) in Lines(f);
    var k :| 0 <= k < |f| && Lines(f)[k] == Line(d[i]);
    LineIsInjective(d[i], f[k]);
  }

  /** Two readings with the same fingerprint list the same entries, names and contents. */
  lemma FingerprintTellsDirectoriesApart(d: Directory, f: Directory)
    requires WellFormed(d) && WellFormed(f)
    requires forall i :: 0 <= i < |d| ==> IsPlain(d[i])
    requires forall i :: 0 <= i < |f| ==> IsPlain(f[i])
    requires Fingerprint(d) == Fingerprint(f)
    ensures forall e :: e in d <==> e in f
  {
    FirstBreak(Decimal(|d|), Join(Sort(Lines(d))), Decimal(|f|), Join(Sort(Lines(f))));
    SortedAreLines(d);
    SortedAreLines(f);
    JoinIsInjective(Sort(Lines(d)), Sort(Lines(f)));
    SortSorts(Lines(d));
    SortSorts(Lines(f));
    forall i | 0 <= i < |d| ensures d[i] in f { EntryIsInBoth(d, f, i); }
    forall i | 0 <= i < |f| ensures f[i] in d { EntryIsInBoth(f, d, i); }
  }

  // -- And equal directories, read in any order, have equal fingerprints --

  lemma {:induction false} LeqAntisymmetric(a: string, b: string)
    requires Leq(a, b) && Leq(b, a)
    ensures a == b
  {
    if a != "" {
      LeqAntisymmetric(a[1..], b[1..]);
      assert a == [a[0]] + a[1..] && b == [b[0]] + b[1..];
    }
  }

  lemma {:induction false} LeqTransitive(a: string, b: string, c: string)
    requires Leq(a, b) && Leq(b, c)
    ensures Leq(a, c)
  {
    if a != "" && a[0] == b[0] == c[0] {
      LeqTransitive(a[1..], b[1..], c[1..]);
    }
  }

  lemma {:induction false} LeqReflexive(a: string)
    ensures Leq(a, a)
  {
    if a != "" {
      LeqReflexive(a[1..]);
    }
  }

  lemma {:induction false} HeadIsLeast(s: seq<string>, i: nat)
    requires Sorted(s) && i < |s|
    ensures Leq(s[0], s[i])
  {
    if i == 0 {
      LeqReflexive(s[0]);
    } else {
      HeadIsLeast(s, i - 1);
      LeqTransitive(s[0], s[i - 1], s[i]);
    }
  }

  lemma HeadsAgree(a: seq<string>, b: seq<string>)
    requires Sorted(a) && Sorted(b) && multiset(a) == multiset(b) && a != []
    ensures b != [] && a[0] == b[0]
  {
    assert a[0] in multiset(a);
    assert a[0] in b && b[0] in multiset(b);
    assert b[0] in a;
    var i :| 0 <= i < |b| && b[i] == a[0];
    var j :| 0 <= j < |a| && a[j] == b[0];
    HeadIsLeast(b, i);
    HeadIsLeast(a, j);
    LeqAntisymmetric(a[0], b[0]);
  }

  /** Lines have one sorted order. */
  lemma {:induction false} SortedIsUnique(a: seq<string>, b: seq<string>)
    requires Sorted(a) && Sorted(b) && multiset(a) == multiset(b)
    ensures a == b
  {
    if a == [] {
      assert |multiset(b)| == 0;
    } else {
      HeadsAgree(a, b);
      assert a == [a[0]] + a[1..] && b == [b[0]] + b[1..];
      assert multiset(a[1..]) == multiset(a) - multiset{a[0]} == multiset(b[1..]);
      SortedIsUnique(a[1..], b[1..]);
    }
  }

  lemma LinesWithout(d: Directory, k: nat)
    requires k < |d|
    ensures Lines(d[..k] + d[k + 1..]) == Lines(d)[..k] + Lines(d)[k + 1..]
    ensures multiset(Lines(d)) == multiset(Lines(d[..k] + d[k + 1..])) + multiset{Line(d[k])}
  {
    assert Lines(d[..k] + d[k + 1..]) == Lines(d)[..k] + Lines(d)[k + 1..];
    assert Lines(d) == Lines(d)[..k] + [Line(d[k])] + Lines(d)[k + 1..];
  }

  function Without(d: Directory, k: nat): Directory
    requires k < |d|
  {
    d[..k] + d[k + 1..]
  }

  lemma WithoutOne(d: Directory, k: nat)
    requires k < |d|
    ensures multiset(d) == multiset(Without(d, k)) + multiset{d[k]}
    ensures multiset(Lines(d)) == multiset(Lines(Without(d, k))) + multiset{Line(d[k])}
  {
    assert d == d[..k] + [d[k]] + d[k + 1..];
    LinesWithout(d, k);
  }

  lemma WithoutTheSame(d: Directory, f: Directory, k: nat)
    requires d != [] && k < |f| && f[k] == d[0] && multiset(d) == multiset(f)
    ensures multiset(Without(d, 0)) == multiset(Without(f, k))
  {
    WithoutOne(d, 0);
    WithoutOne(f, k);
    assert multiset(Without(d, 0)) == multiset(d) - multiset{d[0]};
    assert multiset(Without(f, k)) == multiset(f) - multiset{d[0]};
  }

  lemma {:induction false} SameLines(d: Directory, f: Directory)
    requires multiset(d) == multiset(f)
    ensures multiset(Lines(d)) == multiset(Lines(f)) && |d| == |f|
    decreases |d|
  {
    if d == [] {
      assert |multiset(f)| == 0;
    } else {
      assert d[0] in multiset(d);
      assert d[0] in f;
      var k :| 0 <= k < |f| && f[k] == d[0];
      WithoutTheSame(d, f, k);
      SameLines(Without(d, 0), Without(f, k));
      WithoutOne(d, 0);
      WithoutOne(f, k);
    }
  }

  lemma FingerprintIgnoresOrder(d: Directory, f: Directory)
    requires multiset(d) == multiset(f)
    ensures Fingerprint(d) == Fingerprint(f)
  {
    SameLines(d, f);
    SortSorts(Lines(d));
    SortSorts(Lines(f));
    SortedIsUnique(Sort(Lines(d)), Sort(Lines(f)));
  }

  /** No entry is listed twice. */
  lemma {:induction false} ListedOnce(d: Directory, e: Entry)
    requires forall i, j :: 0 <= i < j < |d| ==> d[i].name != d[j].name
    ensures multiset(d)[e] == if e in d then 1 else 0
  {
    if d != [] {
      var n := |d| - 1;
      ListedOnce(d[..n], e);
      assert d == d[..n] + [d[n]];
      if e in d[..n] {
        var i :| 0 <= i < n && d[..n][i] == e;
        assert d[i].name != d[n].name;
      }
    }
  }

  /** So a fingerprint is equal exactly for equal directories, whatever order they were listed in. */
  lemma FingerprintsAreEqualExactlyForSameEntries(d: Directory, f: Directory)
    requires Allowed(false, false, d) && Allowed(false, false, f)
    ensures Fingerprint(d) == Fingerprint(f) <==> SameEntries(d, f)
  {
    if Fingerprint(d) == Fingerprint(f) {
      FingerprintTellsDirectoriesApart(d, f);
    }
    if SameEntries(d, f) {
      forall e ensures multiset(d)[e] == multiset(f)[e] {
        ListedOnce(d, e);
        ListedOnce(f, e);
      }
      assert multiset(d) == multiset(f);
      FingerprintIgnoresOrder(d, f);
    }
  }

  predicate IsDigit(c: char) {
    '0' <= c <= '9'
  }

  /** A numeral read from the left. */
  function ValueOf(s: string): nat
    requires forall i :: 0 <= i < |s| ==> IsDigit(s[i])
  {
    if s == "" then 0
    else
      assert IsDigit(s[|s| - 1]);
      10 * ValueOf(s[..|s| - 1]) + (s[|s| - 1] - '0') as nat
  }

  /** The count in front of the lines is written in decimal. */
  lemma {:induction false} DecimalReadsBack(n: nat)
    ensures forall i :: 0 <= i < |Decimal(n)| ==> IsDigit(Decimal(n)[i])
    ensures ValueOf(Decimal(n)) == n
  {
    var s := Decimal(n);
    if n < 10 {
      assert s[..|s| - 1] == "";
    } else {
      DecimalReadsBack(n / 10);
      assert s[..|s| - 1] == Decimal(n / 10);
    }
  }

  // -- And exactly for those names --

  lemma OneLine(e: Entry)
    ensures Fingerprint([e]) == "1\n" + Line(e)
  {
    assert Lines([e]) == [Line(e)];
    assert Sort([Line(e)]) == Insert(Line(e), Sort([Line(e)][1..])) == [Line(e)];
    assert Decimal(1) == "1";
  }

  /** The sub-directory whose line a file called `dir` or `dir:…` has. */
  function Twin(f: Entry): Entry
    requires LooksLikeSubDir(f)
  {
    if f.name == "dir" then SubDir(f.digest) else SubDir(f.name[4..] + ":" + f.digest)
  }

  lemma TwinHasTheSameLine(f: Entry)
    requires LooksLikeSubDir(f) && IsEntry(f)
    ensures IsEntry(Twin(f)) && Line(Twin(f)) == Line(f)
    ensures '\n' !in f.name ==> '\n' !in Twin(f).name
  {
    if f.name != "dir" {
      assert f.name == "dir:" + f.name[4..];
    }
  }

  /** A file shares its fingerprint with some sub-directory exactly when it is called `dir` or `dir:…`. */
  lemma FileReadsAsSubDirExactlyWhen(f: Entry)
    requires f.File? && IsEntry(f) && '\n' !in f.name
    ensures (exists d: Entry :: d.SubDir? && IsEntry(d) && '\n' !in d.name && Fingerprint([d]) == Fingerprint([f]))
            <==> LooksLikeSubDir(f)
  {
    OneLine(f);
    if LooksLikeSubDir(f) {
      TwinHasTheSameLine(f);
      OneLine(Twin(f));
    }
    if d: Entry :| d.SubDir? && IsEntry(d) && '\n' !in d.name && Fingerprint([d]) == Fingerprint([f]) {
      OneLine(d);
      assert Line(d) == Fingerprint([d])[2..] && Line(f) == Fingerprint([f])[2..];
      if !LooksLikeSubDir(f) {
        FileLineIsNoDirLine(f, d);
      }
    }
  }

  lemma {:induction false} PairIsSorted(a: string, b: string)
    requires a != "" && b != "" && a[0] < b[0]
    ensures Sort([a, b]) == [a, b]
  {
    assert [a, b][1..] == [b] && [b][1..] == [];
    assert Sort([b]) == Insert(b, []) == [b];
    assert Sort([a, b]) == Insert(a, [b]);
    assert Leq(a, b);
  }

  lemma {:induction false} PairIsJoined(a: string, b: string)
    ensures Join([a, b]) == a + "\n" + b
  {
    assert [a, b][1..] == [b];
  }

  lemma {:induction false} TwoLines(a: Entry, b: Entry)
    requires Line(a) != "" && Line(b) != "" && Line(a)[0] < Line(b)[0]
    ensures Fingerprint([a, b]) == "2\n" + (Line(a) + "\n" + Line(b))
  {
    assert Lines([a, b]) == [Line(a), Line(b)];
    PairIsSorted(Line(a), Line(b));
    PairIsJoined(Line(a), Line(b));
    assert Decimal(2) == "2";
    assert Decimal(2) + "\n" == "2\n";
  }

  /** One text, read as two files in two ways. */
  lemma NewlineNamesCollide(x: string, y: string, z: string)
    requires IsDigest(x) && IsDigest(y) && IsDigest(z)
    ensures var d := [File("a:" + x + "\nb", y), File("c", z)];
            var f := [File("a", x), File("b:" + y + "\nc", z)];
            WellFormed(d) && WellFormed(f) && Fingerprint(d) == Fingerprint(f) && File("c", z) !in f
  {
    var d0, d1 := File("a:" + x + "\nb", y), File("c", z);
    var f0, f1 := File("a", x), File("b:" + y + "\nc", z);
    TwoLines(d0, d1);
    TwoLines(f0, f1);
    assert Line(d0) + "\n" + Line(d1) == Line(f0) + "\n" + Line(f1);
  }

  /** A directory with names as allowed: with newlines or not, with files called `dir` or `dir:…` or not. */
  ghost predicate Allowed(newlines: bool, dirNames: bool, d: Directory) {
    && WellFormed(d)
    && forall i :: 0 <= i < |d| ==> (newlines || '\n' !in d[i].name) && (dirNames || !LooksLikeSubDir(d[i]))
  }

  ghost predicate SameEntries(d: Directory, f: Directory) {
    forall e :: e in d <==> e in f
  }

  ghost predicate TellsApart(newlines: bool, dirNames: bool) {
    forall d, f | Allowed(newlines, dirNames, d) && Allowed(newlines, dirNames, f) ::
      Fingerprint(d) == Fingerprint(f) ==> SameEntries(d, f)
  }

  lemma OtherInitial(e: Entry, c: char)
    requires e.name != "" && e.name[0] == c != 'd'
    ensures !LooksLikeSubDir(e)
  {
  }

  lemma NewlinesAreNotTold(dirNames: bool)
    ensures !TellsApart(true, dirNames)
  {
    var hash := seq(64, _ => '0');
    assert IsDigest(hash);
    NewlineNamesCollide(hash, hash, hash);
    var d := [File("a:" + hash + "\nb", hash), File("c", hash)];
    var f := [File("a", hash), File("b:" + hash + "\nc", hash)];
    assert File("c", hash) in d && !SameEntries(d, f);
    OtherInitial(d[0], 'a');
    OtherInitial(d[1], 'c');
    OtherInitial(f[0], 'a');
    OtherInitial(f[1], 'b');
    assert Allowed(true, dirNames, d) && Allowed(true, dirNames, f);
  }

  lemma DirNamesAreNotTold(newlines: bool)
    ensures !TellsApart(newlines, true)
  {
    var f := File("dir", seq(64, _ => '0'));
    assert IsDigest(f.digest);
    TwinHasTheSameLine(f);
    OneLine(f);
    OneLine(Twin(f));
    assert f in [f] && !SameEntries([f], [Twin(f)]);
    assert Allowed(newlines, true, [f]) && Allowed(newlines, true, [Twin(f)]);
  }

  /** Equal fingerprints mean equal directories if and only if neither kind of name is allowed. */
  lemma TellsApartExactlyPlainNames(newlines: bool, dirNames: bool)
    ensures TellsApart(newlines, dirNames) <==> !newlines && !dirNames
  {
    if newlines {
      NewlinesAreNotTold(dirNames);
    } else if dirNames {
      DirNamesAreNotTold(newlines);
    } else {
      forall d, f | Allowed(false, false, d) && Allowed(false, false, f) && Fingerprint(d) == Fingerprint(f)
        ensures SameEntries(d, f)
      {
        FingerprintTellsDirectoriesApart(d, f);
      }
    }
  }
}
