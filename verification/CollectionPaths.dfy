/** Where the attempts of a conversation lie on disk, and when two conversations get in each other's way. */
module CollectionPaths {
  import opened LayerList

  /** A resolved absolute path by its components. */
  type Path = seq<string>

  /** What separates components, and which names the file system takes for the same. */
  datatype FileSystem = FileSystem(separators: set<char>, fold: string -> string)

  /** The file system and the output directory of a collection. */
  datatype Layout = Layout(fs: FileSystem, root: Path)

  // ---- Joining a directory and a text ----

  /** The text between separators, empty pieces included. */
  function Pieces(fs: FileSystem, s: string): (pieces: seq<string>)
    ensures |pieces| >= 1
  {
    if s == "" then [""]
    else
      var rest := Pieces(fs, s[1..]);
      if s[0] in fs.separators then [""] + rest else [[s[0]] + rest[0]] + rest[1..]
  }

  function Enter(fs: FileSystem, at: Path, name: string): Path {
    if name == "" || name == "." then at
    else if name == ".." then (if at == [] then [] else at[..|at| - 1])
    else at + [fs.fold(name)]
  }

  function Walk(fs: FileSystem, at: Path, names: seq<string>): Path
    decreases names
  {
    if names == [] then at else Walk(fs, Enter(fs, at, names[0]), names[1..])
  }

  /** A text that starts with a separator replaces the directory it is joined to. */
  predicate Absolute(fs: FileSystem, s: string) {
    s != "" && s[0] in fs.separators
  }

  function Place(fs: FileSystem, root: Path, id: string): Path {
    Walk(fs, if Absolute(fs, id) then [] else root, Pieces(fs, id))
  }

  // ---- Attempt directories ----

  function Zeros(n: nat): string {
    if n == 0 then "" else "0" + Zeros(n - 1)
  }

  /** At least four digits. */
  function Padded(k: nat): string {
    Zeros(if |Str(k)| >= 4 then 0 else 4 - |Str(k)|) + Str(k)
  }

  function AttemptName(k: nat): string {
    "attempt-" + Padded(k)
  }

  /** The first attempt lies in the conversation's own directory, later ones in numbered ones inside it. */
  function Directory(fs: FileSystem, root: Path, id: string, k: nat): Path {
    if k == 0 then Place(fs, root, id) else Enter(fs, Place(fs, root, id), AttemptName(k))
  }

  lemma {:induction false} ZerosAddNothing(n: nat, s: string)
    requires AllDigits(s)
    ensures AllDigits(Zeros(n) + s) && Number(Zeros(n) + s) == Number(s)
    decreases n + |s|
  {
    if s != "" {
      var init := s[..|s| - 1];
      ZerosAddNothing(n, init);
      assert Zeros(n) + s == (Zeros(n) + init) + [s[|s| - 1]];
      NumberSnoc(Zeros(n) + init, s[|s| - 1]);
    } else if n > 0 {
      ZerosAddNothing(n - 1, "");
      ZerosCommute(n - 1);
      assert Zeros(n - 1) + "" == Zeros(n - 1) && Zeros(n) + "" == Zeros(n - 1) + ['0'];
      NumberSnoc(Zeros(n - 1), '0');
    }
  }

  lemma {:induction false} ZerosCommute(n: nat)
    ensures Zeros(n + 1) == Zeros(n) + ['0']
  {
    if n > 0 {
      ZerosCommute(n - 1);
    }
  }

  lemma {:induction false} PaddedReadsBack(k: nat)
    ensures AllDigits(Padded(k)) && Number(Padded(k)) == k
  {
    StrReadsBack(k);
    ZerosAddNothing(if |Str(k)| >= 4 then 0 else 4 - |Str(k)|, Str(k));
  }

  lemma {:induction false} AttemptNamesDiffer(j: nat, k: nat)
    ensures AttemptName(j) == AttemptName(k) ==> j == k
    ensures AttemptName(k) != "" && AttemptName(k) != "." && AttemptName(k) != ".."
  {
    hide Padded, Number;
    assert AttemptName(j)[8..] == Padded(j) && AttemptName(k)[8..] == Padded(k);
    assert |AttemptName(k)| >= 8;
    PaddedReadsBack(j);
    PaddedReadsBack(k);
  }

  /** The file system may fold names, but it tells numbered attempts apart. */
  ghost predicate TellsAttemptsApart(fs: FileSystem) {
    forall j, k :: fs.fold(AttemptName(j)) == fs.fold(AttemptName(k)) ==> j == k
  }

  lemma {:induction false} DirectoryIs(fs: FileSystem, root: Path, id: string, k: nat)
    ensures Directory(fs, root, id, k) == Place(fs, root, id) + if k == 0 then [] else [fs.fold(AttemptName(k))]
  {
    AttemptNamesDiffer(k, k);
  }

  /** Attempts of one conversation never share a directory. */
  lemma {:induction false} OwnAttemptsApart(fs: FileSystem, root: Path, id: string, j: nat, k: nat)
    requires TellsAttemptsApart(fs)
    ensures Directory(fs, root, id, j) == Directory(fs, root, id, k) ==> j == k
  {
    hide Place, AttemptName;
    DirectoryIs(fs, root, id, j);
    DirectoryIs(fs, root, id, k);
    if Directory(fs, root, id, j) == Directory(fs, root, id, k) {
      var n := |Place(fs, root, id)|;
      if j > 0 && k > 0 {
        assert Directory(fs, root, id, j)[n] == Directory(fs, root, id, k)[n];
      }
    }
  }

  // ---- Two conversations ----

  /** No attempt of one conversation shares a directory with an attempt of the other. */
  ghost predicate Apart(fs: FileSystem, root: Path, c: string, d: string) {
    forall j: nat, k: nat :: Directory(fs, root, c, j) != Directory(fs, root, d, k)
  }

  /** The path is a numbered attempt directory inside the other one. */
  ghost predicate IsAttemptOf(fs: FileSystem, p: Path, q: Path) {
    exists k: nat :: k > 0 && p == q + [fs.fold(AttemptName(k))]
  }

  /**
   Conversations keep out of each other's way exactly when their own directories differ and neither is
   a numbered attempt directory of the other.
   */
  lemma {:induction false} ApartExactly(fs: FileSystem, root: Path, c: string, d: string)
    requires TellsAttemptsApart(fs)
    ensures Apart(fs, root, c, d)
       <==> Place(fs, root, c) != Place(fs, root, d)
            && !IsAttemptOf(fs, Place(fs, root, c), Place(fs, root, d))
              && !IsAttemptOf(fs, Place(fs, root, d), Place(fs, root, c))
  {
    hide Place, AttemptName, Directory;
    var p, q := Place(fs, root, c), Place(fs, root, d);
    forall id, k: nat
      ensures Directory(fs, root, id, k) == Place(fs, root, id) + if k == 0 then [] else [fs.fold(AttemptName(k))]
    {
      DirectoryIs(fs, root, id, k);
    }
    if p == q {
      assert Directory(fs, root, c, 0) == Directory(fs, root, d, 0);
    } else if IsAttemptOf(fs, p, q) {
      var k: nat :| k > 0 && p == q + [fs.fold(AttemptName(k))];
      assert Directory(fs, root, c, 0) == Directory(fs, root, d, k);
    } else if IsAttemptOf(fs, q, p) {
      var k: nat :| k > 0 && q == p + [fs.fold(AttemptName(k))];
      assert Directory(fs, root, c, k) == Directory(fs, root, d, 0);
    } else {
      forall j: nat, k: nat
        ensures Directory(fs, root, c, j) != Directory(fs, root, d, k)
      {
        SameTail(p, q, fs.fold(AttemptName(j)), fs.fold(AttemptName(k)));
        assert p + [] == p && q + [] == q;
      }
    }
  }

  lemma {:induction false} SameTail(p: Path, q: Path, a: string, b: string)
    ensures p + [a] == q + [b] ==> p == q
  {
    if p + [a] == q + [b] {
      assert p == (p + [a])[..|p|] && q == (q + [b])[..|q|] && |p| == |q|;
    }
  }

  function DirectoryOf(l: Layout, id: string, k: nat): Path {
    Directory(l.fs, l.root, id, k)
  }

  /** No two conversations of the corpus get in each other's way. */
  ghost predicate Separate(l: Layout, corpus: seq<string>) {
    TellsAttemptsApart(l.fs) && forall i, j :: 0 <= i < j < |corpus| ==> Apart(l.fs, l.root, corpus[i], corpus[j])
  }

  lemma {:induction false} ApartBothWays(l: Layout, c: string, d: string)
    requires Apart(l.fs, l.root, c, d)
    ensures Apart(l.fs, l.root, d, c) && c != d
  {
    hide Directory;
    assert Directory(l.fs, l.root, c, 0) != Directory(l.fs, l.root, d, 0);
  }

  // ---- Plain ids ----

  /** One component and no special name. */
  predicate PlainId(fs: FileSystem, id: string) {
    && id != "" && id != "." && id != ".."
    && forall i :: 0 <= i < |id| ==> id[i] !in fs.separators
  }

  lemma {:induction false} OnePiece(fs: FileSystem, s: string)
    requires forall i :: 0 <= i < |s| ==> s[i] !in fs.separators
    ensures Pieces(fs, s) == [s]
  {
    if s != "" {
      OnePiece(fs, s[1..]);
      assert [s[0]] + s[1..] == s;
    }
  }

  lemma {:induction false} PlainPlace(fs: FileSystem, root: Path, id: string)
    requires PlainId(fs, id)
    ensures Place(fs, root, id) == root + [fs.fold(id)]
  {
    OnePiece(fs, id);
    assert id[0] !in fs.separators;
    assert Walk(fs, root, [id]) == Walk(fs, Enter(fs, root, id), []);
  }

  /** Plain ids that the file system does not take for the same name are apart, wherever the output lies. */
  lemma {:induction false} PlainIdsApart(fs: FileSystem, root: Path, c: string, d: string)
    requires TellsAttemptsApart(fs) && PlainId(fs, c) && PlainId(fs, d) && fs.fold(c) != fs.fold(d)
    ensures Apart(fs, root, c, d)
  {
    hide Place, PlainId, Apart, AttemptName;
    PlainPlace(fs, root, c);
    PlainPlace(fs, root, d);
    ApartExactly(fs, root, c, d);
    assert (root + [fs.fold(c)])[|root|] == fs.fold(c) && (root + [fs.fold(d)])[|root|] == fs.fold(d);
  }

  /** So a corpus of plain ids with different names is safe. */
  lemma {:induction false} PlainCorpusIsSeparate(l: Layout, corpus: seq<string>)
    requires TellsAttemptsApart(l.fs) && forall i :: 0 <= i < |corpus| ==> PlainId(l.fs, corpus[i])
    requires forall i, j :: 0 <= i < j < |corpus| ==> l.fs.fold(corpus[i]) != l.fs.fold(corpus[j])
    ensures Separate(l, corpus)
  {
    hide PlainId, Apart, TellsAttemptsApart;
    forall i, j | 0 <= i < j < |corpus|
      ensures Apart(l.fs, l.root, corpus[i], corpus[j])
    {
      PlainIdsApart(l.fs, l.root, corpus[i], corpus[j]);
    }
  }

  // ---- Ids with a separator ----

  const POSIX: FileSystem := FileSystem({'/'}, name => name)

  lemma {:induction false} PosixTells()
    ensures TellsAttemptsApart(POSIX)
  {
    hide AttemptName;
    forall j: nat, k: nat
      ensures POSIX.fold(AttemptName(j)) == POSIX.fold(AttemptName(k)) ==> j == k
    {
      AttemptNamesDiffer(j, k);
    }
  }

  lemma {:induction false} FirstRetryName()
    ensures AttemptName(1) == "attempt-0001"
  {
    assert Str(1) == "1";
    assert Zeros(3) == "0" + Zeros(2) && Zeros(2) == "0" + Zeros(1) && Zeros(1) == "0" + Zeros(0);
  }

  lemma {:induction false} PiecesJoin(fs: FileSystem, a: string, b: string, sep: char)
    requires sep in fs.separators && forall i :: 0 <= i < |a| ==> a[i] !in fs.separators
    ensures Pieces(fs, a + [sep] + b) == [a] + Pieces(fs, b)
  {
    var s := a + [sep] + b;
    if a == "" {
      assert s[1..] == b;
    } else {
      assert s[1..] == a[1..] + [sep] + b;
      PiecesJoin(fs, a[1..], b, sep);
      assert [a[0]] + a[1..] == a && Pieces(fs, s[1..])[1..] == Pieces(fs, b);
    }
  }

  lemma {:induction false} NestedPlace(fs: FileSystem, root: Path, a: string, b: string, sep: char)
    requires PlainId(fs, a) && PlainId(fs, b) && sep in fs.separators
    ensures Place(fs, root, a + [sep] + b) == root + [fs.fold(a)] + [fs.fold(b)]
  {
    PiecesJoin(fs, a, b, sep);
    OnePiece(fs, b);
    var id, names := a + [sep] + b, [a, b];
    assert Pieces(fs, id) == names && id[0] == a[0] && !Absolute(fs, id);
    assert names[1..] == [b] && names[1..][1..] == [];
    assert Walk(fs, root, names) == Walk(fs, root + [fs.fold(a)], [b]);
    assert Walk(fs, root + [fs.fold(a)], [b]) == Walk(fs, root + [fs.fold(a)] + [fs.fold(b)], []);
  }

  /**
   Different ids can share a directory: a retry of one conversation lands in the directory of another
   whose id spells out that retry.
   */
  lemma {:induction false} RetriesCanCollide(fs: FileSystem, root: Path, c: string, k: nat, sep: char)
    requires PlainId(fs, c) && PlainId(fs, AttemptName(k)) && sep in fs.separators && k > 0
    ensures Directory(fs, root, c, k) == Directory(fs, root, c + [sep] + AttemptName(k), 0)
    ensures !Apart(fs, root, c, c + [sep] + AttemptName(k))
  {
    hide Place, AttemptName, PlainId, Directory;
    PlainPlace(fs, root, c);
    DirectoryIs(fs, root, c, k);
    DirectoryIs(fs, root, c + [sep] + AttemptName(k), 0);
    NestedPlace(fs, root, c, AttemptName(k), sep);
  }

  /** For instance the first retry of "a". */
  lemma {:induction false} IdsCanCollide(root: Path)
    ensures Directory(POSIX, root, "a", 1) == Directory(POSIX, root, "a/attempt-0001", 0)
    ensures !Apart(POSIX, root, "a", "a/attempt-0001")
  {
    hide Place, Apart, AttemptName, Directory;
    FirstRetryName();
    RetriesCanCollide(POSIX, root, "a", 1, '/');
    assert "a" + ['/'] + "attempt-0001" == "a/attempt-0001";
  }
}
