/** http/logs/utill.hpp: the directory part of a file name, and creating every
    directory on a path. */
module DirectoryTree {
  import opened Text

  /** A place in the tree: the names from the root down. */
  type Place = seq<string>

  datatype FileSystem = FileSystem(dirs: set<Place>, files: set<Place>, cwd: Place) {
    predicate Valid() {
      && [] in dirs && cwd in dirs
      && (forall d {:trigger HasParent(d)} | d in dirs :: HasParent(d))
      && dirs !! files
    }

    predicate HasParent(d: Place) { d == [] || d[..|d| - 1] in dirs }

    /** Where one path segment leads. */
    static function Enter(at: Place, segment: string): Place {
      if segment == "." then at
      else if segment == ".." then (if at == [] then [] else at[..|at| - 1])
      else at + [segment]
    }

    static function Locate(at: Place, segments: seq<string>): Place
      decreases segments
    {
      if segments == [] then at else Locate(Enter(at, segments[0]), segments[1..])
    }

    /** Every directory on the way is there. */
    predicate Reachable(at: Place, segments: seq<string>)
      decreases segments
    {
      at in dirs && (segments == [] || Reachable(Enter(at, segments[0]), segments[1..]))
    }

    function Start(path: string): Place {
      if path != "" && path[0] == '/' then [] else cwd
    }

    function Target(path: string): Place { Locate(Start(path), Segments(path)) }

    predicate IsDir(path: string) { path != "" && Reachable(Start(path), Segments(path)) }

    /** The directory a path's last segment is in. */
    predicate ParentPresent(path: string) {
      var s := Segments(path);
      s != [] && Reachable(Start(path), s[..|s| - 1])
    }

    /** stat succeeds. */
    predicate Exists(path: string) {
      || IsDir(path)
      || (path != "" && path[|path| - 1] != '/' && ParentPresent(path) && Target(path) in files)
    }

    /** mkdir; a failing call changes nothing. */
    function Mkdir(path: string): FileSystem {
      var s := Segments(path);
      if ParentPresent(path) && s[|s| - 1] != "." && s[|s| - 1] != ".."
         && Target(path) !in dirs && Target(path) !in files
      then this.(dirs := dirs + {Target(path)}) else this
    }
  }

  /** One round of the loop in creat_dircetory. */
  function EnsureDir(fs: FileSystem, path: string): FileSystem {
    if fs.Exists(path) then fs else fs.Mkdir(path)
  }

  function UpToSlash(s: string): (r: string)
    ensures |r| <= |s|
    ensures s != "" && s[0] != '/' ==> r != ""
  {
    if s == "" || s[0] == '/' then "" else [s[0]] + UpToSlash(s[1..])
  }

  /** The non-empty pieces between slashes. Backslashes are ordinary characters here. */
  function Segments(path: string): seq<string>
    decreases |path|
  {
    if path == "" then []
    else if path[0] == '/' then Segments(path[1..])
    else var s := UpToSlash(path); [s] + Segments(path[|s|..])
  }

  // ------------------------------------------------------------- the functions

  predicate IsSeparator(c: char) { c == '/' || c == '\\' }

  /** find_first_of("/\\", idx). */
  function NextSeparator(s: string, idx: nat): (r: Option<nat>)
    ensures r.Some? ==> idx <= r.value < |s| && IsSeparator(s[r.value])
    ensures r.Some? ==> forall j | idx <= j < r.value :: !IsSeparator(s[j])
    ensures r.None? ==> forall j | idx <= j < |s| :: !IsSeparator(s[j])
    decreases |s| - idx
  {
    if idx >= |s| then None
    else if IsSeparator(s[idx]) then Some(idx)
    else NextSeparator(s, idx + 1)
  }

  /** file::path: up to and including the last separator. */
  function PathOf(name: string): string {
    if name == "" then "."
    else if IsSeparator(name[|name| - 1]) then name
    else if !(exists i :: 0 <= i < |name| && IsSeparator(name[i])) then "."
    else PathOf(name[..|name| - 1])
  }

  /** One round for every separator-terminated prefix, shortest first. */
  function Rounds(fs: FileSystem, path: string, idx: nat): FileSystem
    decreases |path| - idx
  {
    if idx >= |path| then fs
    else Rounds(if IsSeparator(path[idx]) then EnsureDir(fs, path[..idx + 1]) else fs, path, idx + 1)
  }

  /** Every round finds its prefix, or the directory to create it in. */
  predicate ParentsPresent(fs: FileSystem, path: string, idx: nat)
    decreases |path| - idx
  {
    || idx >= |path|
    || (!IsSeparator(path[idx]) && ParentsPresent(fs, path, idx + 1))
    || (&& IsSeparator(path[idx])
        && (fs.Exists(path[..idx + 1]) || fs.ParentPresent(path[..idx + 1]))
        && ParentsPresent(EnsureDir(fs, path[..idx + 1]), path, idx + 1))
  }

  lemma {:induction false} RoundsSkip(fs: FileSystem, path: string, idx: nat, pos: nat)
    requires idx <= pos <= |path| && forall j | idx <= j < pos :: !IsSeparator(path[j])
    ensures Rounds(fs, path, idx) == Rounds(fs, path, pos)
    decreases pos - idx
  {
    if idx < pos {
      RoundsSkip(fs, path, idx + 1, pos);
    }
  }

  /** What creat_dircetory leaves behind: after the rounds a last piece without
      a separator gets its own mkdir. */
  function Created(fs: FileSystem, path: string): FileSystem {
    var gs := Rounds(fs, path, 0);
    if path != "" && !IsSeparator(path[|path| - 1]) then gs.Mkdir(path) else gs
  }

  /** The file system object the functions work on. */
  class Disk {
    var fs: FileSystem

    constructor (fs: FileSystem)
      ensures this.fs == fs
    {
      this.fs := fs;
    }

    method Exits(path: string) returns (b: bool)
      ensures b == fs.Exists(path)
    {
      b := fs.Exists(path);
    }

    method Mkdir(path: string)
      modifies this
      ensures fs == old(fs).Mkdir(path)
    {
      fs := fs.Mkdir(path);
    }

    method Ensure(path: string)
      modifies this
      ensures fs == EnsureDir(old(fs), path)
    {
      var there := Exits(path);
      if there {
        return;
      }
      Mkdir(path);
    }

    /** The rounds of the loop in creat_dircetory; `idx` is where it stopped. */
    method EnsureParents(path: string) returns (idx: nat)
      modifies this
      ensures fs == Rounds(old(fs), path, 0)
      ensures idx <= |path| && (forall j | idx <= j < |path| :: !IsSeparator(path[j]))
      ensures idx == 0 || IsSeparator(path[idx - 1])
    {
      ghost var goal := Rounds(fs, path, 0);
      idx := 0;
      var pos := NextSeparator(path, idx);
      while pos.Some?
        invariant idx <= |path| && pos == NextSeparator(path, idx)
        invariant Rounds(fs, path, idx) == goal
        invariant idx == 0 || IsSeparator(path[idx - 1])
        decreases |path| - idx
      {
        RoundsSkip(fs, path, idx, pos.value);
        var parent := path[..pos.value + 1];
        idx := pos.value + 1;
        Ensure(parent);
        pos := NextSeparator(path, idx);
      }
      RoundsSkip(fs, path, idx, |path|);
    }

    method CreatDirectory(path: string)
      modifies this
      ensures fs == Created(old(fs), path)
    {
      var idx := EnsureParents(path);
      if idx < |path| {
        Mkdir(path);
      }
    }
  }

  // ------------------------------------------------------------------- proofs

  lemma {:induction false} UpToSlashOf(s: string, y: string)
    requires s != "" && '/' in s
    ensures UpToSlash(s + y) == UpToSlash(s) && |UpToSlash(s)| < |s|
  {
    if s[0] != '/' {
      assert (s + y)[1..] == s[1..] + y;
      UpToSlashOf(s[1..], y);
    }
  }

  lemma {:induction false} UpToSlashPlain(s: string)
    requires '/' !in s
    ensures UpToSlash(s) == s && UpToSlash(s + "/") == s
  {
    if s == "" {
      assert s + "/" == "/";
    } else {
      assert (s + "/")[1..] == s[1..] + "/";
      UpToSlashPlain(s[1..]);
    }
  }

  /** At a slash the segments split. */
  lemma {:induction false} SegmentsAppend(x: string, y: string)
    requires x != "" ==> x[|x| - 1] == '/'
    ensures Segments(x + y) == Segments(x) + Segments(y)
    decreases |x|
  {
    if x == "" {
      assert x + y == y;
    } else if x[0] == '/' {
      DropAppend(x, y, 1);
      SegmentsAppend(x[1..], y);
    } else {
      UpToSlashOf(x, y);
      var n := |UpToSlash(x)|;
      DropAppend(x, y, n);
      SegmentsAppend(x[n..], y);
      Assoc([UpToSlash(x)], Segments(x[n..]), Segments(y));
    }
  }

  /** A last piece without slashes adds at most one segment. */
  lemma SegmentsOfPiece(piece: string)
    requires '/' !in piece
    ensures Segments(piece) == (if piece == "" then [] else [piece])
    ensures Segments(piece + "/") == Segments(piece)
  {
    UpToSlashPlain(piece);
    if piece != "" {
      assert piece[|piece|..] == "" && (piece + "/")[|piece|..] == "/";
      assert Segments("/") == Segments("/"[1..]) == [];
      assert [piece] + [] == [piece];
    }
  }

  lemma {:induction false} ReachableAppend(fs: FileSystem, at: Place, a: seq<string>, b: seq<string>)
    ensures fs.Reachable(at, a + b) <==> fs.Reachable(at, a) && fs.Reachable(FileSystem.Locate(at, a), b)
    ensures FileSystem.Locate(at, a + b) == FileSystem.Locate(FileSystem.Locate(at, a), b)
    decreases a
  {
    if a == [] {
      assert a + b == b;
      assert fs.Reachable(at, b) ==> at in fs.dirs;
    } else {
      assert (a + b)[1..] == a[1..] + b;
      ReachableAppend(fs, FileSystem.Enter(at, a[0]), a[1..], b);
    }
  }

  lemma {:induction false} ReachableIsDir(fs: FileSystem, at: Place, segments: seq<string>)
    requires fs.Reachable(at, segments)
    ensures FileSystem.Locate(at, segments) in fs.dirs
    decreases segments
  {
    if segments != [] {
      ReachableIsDir(fs, FileSystem.Enter(at, segments[0]), segments[1..]);
    }
  }

  lemma {:induction false} ReachableGrows(fs: FileSystem, gs: FileSystem, at: Place, segments: seq<string>)
    requires fs.dirs <= gs.dirs && fs.Reachable(at, segments)
    ensures gs.Reachable(at, segments)
    decreases segments
  {
    if segments != [] {
      ReachableGrows(fs, gs, FileSystem.Enter(at, segments[0]), segments[1..]);
    }
  }

  lemma MkdirKeeps(fs: FileSystem, path: string)
    requires fs.Valid()
    ensures var gs := fs.Mkdir(path);
            gs.Valid() && fs.dirs <= gs.dirs && gs.files == fs.files && gs.cwd == fs.cwd
  {
    var gs := fs.Mkdir(path);
    if gs != fs {
      var s := Segments(path);
      assert s == s[..|s| - 1] + [s[|s| - 1]];
      ReachableAppend(fs, fs.Start(path), s[..|s| - 1], [s[|s| - 1]]);
      ReachableIsDir(fs, fs.Start(path), s[..|s| - 1]);
      var up := FileSystem.Locate(fs.Start(path), s[..|s| - 1]);
      assert FileSystem.Locate(up, [s[|s| - 1]]) == up + [s[|s| - 1]];
      assert fs.Target(path)[..|fs.Target(path)| - 1] == up;
      forall d | d in gs.dirs
        ensures gs.HasParent(d)
      {
        assert d in fs.dirs ==> fs.HasParent(d);
      }
    }
  }

  lemma EnsureDirKeeps(fs: FileSystem, path: string)
    requires fs.Valid()
    ensures var gs := EnsureDir(fs, path);
            gs.Valid() && fs.dirs <= gs.dirs && gs.files == fs.files && gs.cwd == fs.cwd
  {
    MkdirKeeps(fs, path);
  }

  /** Where the last segment of a path hangs. */
  lemma LastSegment(fs: FileSystem, at: Place, a: seq<string>, piece: string)
    requires fs.Valid() && fs.Reachable(at, a)
    ensures var up := FileSystem.Locate(at, a);
            && up in fs.dirs
            && FileSystem.Locate(at, a + [piece]) == FileSystem.Enter(up, piece)
            && (fs.Reachable(at, a + [piece]) <==> FileSystem.Enter(up, piece) in fs.dirs)
            && (piece == "." || piece == ".." ==> FileSystem.Enter(up, piece) in fs.dirs)
  {
    var up := FileSystem.Locate(at, a);
    ReachableAppend(fs, at, a, [piece]);
    ReachableIsDir(fs, at, a);
    assert [piece][1..] == [];
    assert fs.HasParent(up);
  }

  /** After one round on a path whose segments are those of a reachable place
      and one more, that path is a directory, unless a regular file is there. */
  lemma RoundMakesDir(fs: FileSystem, p: string, a: seq<string>, piece: string)
    requires fs.Valid() && p != ""
    requires Segments(p) == a + [piece] && fs.Reachable(fs.Start(p), a)
    requires fs.Target(p) !in fs.files
    ensures fs.ParentPresent(p) && EnsureDir(fs, p).IsDir(p)
  {
    var start := fs.Start(p);
    assert (a + [piece])[..|a|] == a;
    LastSegment(fs, start, a, piece);
    var gs := EnsureDir(fs, p);
    EnsureDirKeeps(fs, p);
    ReachableGrows(fs, gs, start, a);
    LastSegment(gs, start, a, piece);
  }

  /** `front` is empty or a slash-terminated directory that exists, and `piece`
      has no slash: one round makes the path up to the next slash a directory. */
  lemma BodyMakesDir(fs: FileSystem, front: string, piece: string)
    requires fs.Valid() && '/' !in piece
    requires front == "" || (front[|front| - 1] == '/' && fs.IsDir(front))
    requires fs.Target(front + (piece + "/")) !in fs.files
    ensures var p := front + (piece + "/");
            (fs.Exists(p) || fs.ParentPresent(p)) && EnsureDir(fs, p).IsDir(p)
  {
    var p := front + (piece + "/");
    SegmentsAppend(front, piece + "/");
    SegmentsOfPiece(piece);
    var a := Segments(front);
    FrontReachable(fs, front, piece + "/");
    if piece == "" {
      assert a + [] == a;
    } else {
      RoundMakesDir(fs, p, a, piece);
    }
  }

  lemma FrontReachable(fs: FileSystem, front: string, back: string)
    requires fs.Valid() && back != ""
    requires front == "" || (front[|front| - 1] == '/' && fs.IsDir(front))
    ensures fs.Reachable(fs.Start(front + back), Segments(front))
  {
    if front != "" {
      assert (front + back)[0] == front[0];
    }
  }

  /** A prefix that ends in a backslash has the same parent. */
  lemma BackslashParent(fs: FileSystem, front: string, piece: string)
    requires fs.Valid() && '/' !in piece && piece != ""
    requires front == "" || (front[|front| - 1] == '/' && fs.IsDir(front))
    ensures fs.ParentPresent(front + piece)
  {
    SegmentsAppend(front, piece);
    SegmentsOfPiece(piece);
    FrontReachable(fs, front, piece);
    assert (Segments(front) + [piece])[..|Segments(front)|] == Segments(front);
  }

  /** Every slash-terminated prefix ending at or before idx is a directory. */
  predicate SlashPrefixesAreDirs(fs: FileSystem, path: string, idx: nat)
    requires idx <= |path|
  {
    forall i | 0 <= i < idx && path[i] == '/' :: fs.IsDir(path[..i + 1])
  }

  predicate NoFileInTheWay(fs: FileSystem, path: string) {
    forall i | 0 <= i < |path| && path[i] == '/' :: fs.Target(path[..i + 1]) !in fs.files
  }

  /** The length of the longest slash-terminated prefix of path[..idx]. */
  function FrontOf(path: string, idx: nat): (n: nat)
    requires idx <= |path|
    ensures n <= idx && (n > 0 ==> path[n - 1] == '/') && (forall j | n <= j < idx :: path[j] != '/')
  {
    if idx == 0 || path[idx - 1] == '/' then idx else FrontOf(path, idx - 1)
  }

  lemma DirsStay(fs: FileSystem, gs: FileSystem, path: string, idx: nat)
    requires idx <= |path| && fs.dirs <= gs.dirs && fs.cwd == gs.cwd && SlashPrefixesAreDirs(fs, path, idx)
    ensures SlashPrefixesAreDirs(gs, path, idx)
  {
    forall i | 0 <= i < idx && path[i] == '/'
      ensures gs.IsDir(path[..i + 1])
    {
      ReachableGrows(fs, gs, fs.Start(path[..i + 1]), Segments(path[..i + 1]));
    }
  }

  lemma FrontIsDir(fs: FileSystem, path: string, pos: nat)
    requires pos < |path| && SlashPrefixesAreDirs(fs, path, pos)
    ensures var n := FrontOf(path, pos);
            && n <= pos && (n == 0 || (path[..n][n - 1] == '/' && fs.IsDir(path[..n])))
            && '/' !in path[n..pos]
  {
    var n := FrontOf(path, pos);
    if n > 0 {
      assert path[..(n - 1) + 1] == path[..n];
    }
  }

  lemma BodyStep(fs: FileSystem, path: string, pos: nat)
    requires fs.Valid() && pos < |path| && IsSeparator(path[pos])
    requires SlashPrefixesAreDirs(fs, path, pos)
    requires path[pos] == '/' ==> fs.Target(path[..pos + 1]) !in fs.files
    ensures fs.Exists(path[..pos + 1]) || fs.ParentPresent(path[..pos + 1])
    ensures path[pos] == '/' ==> EnsureDir(fs, path[..pos + 1]).IsDir(path[..pos + 1])
  {
    var n := FrontOf(path, pos);
    FrontIsDir(fs, path, pos);
    CutPrefix(path, n, pos);
    if path[pos] == '/' {
      BodyMakesDir(fs, path[..n], path[n..pos]);
    } else {
      BackslashParent(fs, path[..n], path[n..pos + 1]);
    }
  }

  lemma NoFileStill(fs: FileSystem, gs: FileSystem, path: string)
    requires gs.files == fs.files && gs.cwd == fs.cwd && NoFileInTheWay(fs, path)
    ensures NoFileInTheWay(gs, path)
  {
    forall i | 0 <= i < |path| && path[i] == '/'
      ensures gs.Target(path[..i + 1]) !in gs.files
    {
      assert gs.Target(path[..i + 1]) == fs.Target(path[..i + 1]);
    }
  }

  lemma {:induction false} RoundsKeep(fs: FileSystem, path: string, idx: nat)
    requires fs.Valid()
    ensures var gs := Rounds(fs, path, idx);
            gs.Valid() && fs.dirs <= gs.dirs && gs.files == fs.files && gs.cwd == fs.cwd
    decreases |path| - idx
  {
    if idx < |path| {
      EnsureDirKeeps(fs, path[..idx + 1]);
      RoundsKeep(if IsSeparator(path[idx]) then EnsureDir(fs, path[..idx + 1]) else fs, path, idx + 1);
    }
  }

  lemma NextRound(fs: FileSystem, path: string, pos: nat)
    requires fs.Valid() && pos < |path| && IsSeparator(path[pos])
    requires SlashPrefixesAreDirs(fs, path, pos) && NoFileInTheWay(fs, path)
    ensures var gs := EnsureDir(fs, path[..pos + 1]);
            gs.Valid() && SlashPrefixesAreDirs(gs, path, pos + 1) && NoFileInTheWay(gs, path)
    ensures fs.Exists(path[..pos + 1]) || fs.ParentPresent(path[..pos + 1])
  {
    var gs := EnsureDir(fs, path[..pos + 1]);
    BodyStep(fs, path, pos);
    EnsureDirKeeps(fs, path[..pos + 1]);
    DirsStay(fs, gs, path, pos);
    NoFileStill(fs, gs, path);
  }

  lemma {:induction false} RoundsWork(fs: FileSystem, path: string, idx: nat)
    requires fs.Valid() && idx <= |path| && SlashPrefixesAreDirs(fs, path, idx) && NoFileInTheWay(fs, path)
    ensures SlashPrefixesAreDirs(Rounds(fs, path, idx), path, |path|)
    ensures ParentsPresent(fs, path, idx)
    decreases |path| - idx
  {
    if idx < |path| {
      if IsSeparator(path[idx]) {
        NextRound(fs, path, idx);
        RoundsWork(EnsureDir(fs, path[..idx + 1]), path, idx + 1);
      } else {
        RoundsWork(fs, path, idx + 1);
      }
    }
  }

  /** After creating a path's directories, nothing that existed is gone, and
      every slash-terminated prefix of the path is a directory if and only if no
      regular file stands in the place of one; then every mkdir issued on a
      prefix ran with its parent present. */
  lemma CreatesEveryPrefix(fs: FileSystem, path: string)
    requires fs.Valid()
    ensures var gs := Created(fs, path);
            && gs.Valid() && fs.dirs <= gs.dirs && gs.files == fs.files
            && (SlashPrefixesAreDirs(gs, path, |path|) <==> NoFileInTheWay(fs, path))
            && (NoFileInTheWay(fs, path) ==> ParentsPresent(fs, path, 0))
  {
    var hs := Rounds(fs, path, 0);
    var gs := Created(fs, path);
    RoundsKeep(fs, path, 0);
    MkdirKeeps(hs, path);
    if NoFileInTheWay(fs, path) {
      RoundsWork(fs, path, 0);
      DirsStay(hs, gs, path, |path|);
    } else {
      FileBlocks(fs, gs, path);
    }
  }

  /** A regular file in the way: with a file "a", the directory "a/" of "a/b/"
      is not made. */
  lemma FileInTheWay(fs: FileSystem, path: string)
    requires fs == FileSystem({[]}, {["a"]}, []) && path == "a/b/"
    ensures fs.Valid() && !SlashPrefixesAreDirs(Created(fs, path), path, |path|)
  {
    SegmentsOfPiece("a");
    assert path[..1 + 1] == "a" + "/" && path[1] == '/';
    assert fs.Target(path[..1 + 1]) == ["a"] by {
      assert FileSystem.Locate([], ["a"]) == ["a"];
    }
    CreatesEveryPrefix(fs, path);
  }

  lemma FileBlocks(fs: FileSystem, gs: FileSystem, path: string)
    requires gs.Valid() && gs.files == fs.files && gs.cwd == fs.cwd && !NoFileInTheWay(fs, path)
    ensures !SlashPrefixesAreDirs(gs, path, |path|)
  {
    var i :| 0 <= i < |path| && path[i] == '/' && fs.Target(path[..i + 1]) in fs.files;
    var p := path[..i + 1];
    if gs.IsDir(p) {
      ReachableIsDir(gs, gs.Start(p), Segments(p));
    }
  }

  // ------------------------------------------------------- the whole path

  /** A prefix ends here: at a slash or backslash, or with the path. */
  predicate Stops(path: string, i: nat)
    requires i < |path|
  {
    i + 1 == |path| || path[i] == '/' || path[i] == '\\'
  }

  /** Every prefix that ends before idx is a directory. */
  predicate PrefixesAreDirs(fs: FileSystem, path: string, idx: nat)
    requires idx <= |path|
  {
    forall i | 0 <= i < idx && Stops(path, i) :: fs.IsDir(path[..i + 1])
  }

  predicate NothingInTheWay(fs: FileSystem, path: string) {
    forall i | 0 <= i < |path| && Stops(path, i) :: fs.Target(path[..i + 1]) !in fs.files
  }

  /** One more piece behind an existing directory, with or without a slash behind
      it: a round, or the last mkdir, makes it a directory. */
  lemma PieceMakesDir(fs: FileSystem, front: string, piece: string)
    requires fs.Valid() && '/' !in piece && piece != ""
    requires front == "" || (front[|front| - 1] == '/' && fs.IsDir(front))
    requires fs.Target(front + piece) !in fs.files
    ensures EnsureDir(fs, front + piece).IsDir(front + piece) && fs.Mkdir(front + piece).IsDir(front + piece)
  {
    var p := front + piece;
    SegmentsAppend(front, piece);
    SegmentsOfPiece(piece);
    FrontReachable(fs, front, piece);
    RoundMakesDir(fs, p, Segments(front), piece);
    if fs.IsDir(p) {
      MkdirKeeps(fs, p);
      ReachableGrows(fs, fs.Mkdir(p), fs.Start(p), Segments(p));
    }
  }

  lemma StopMakesDir(fs: FileSystem, path: string, pos: nat)
    requires fs.Valid() && pos < |path| && PrefixesAreDirs(fs, path, pos)
    requires fs.Target(path[..pos + 1]) !in fs.files
    ensures EnsureDir(fs, path[..pos + 1]).IsDir(path[..pos + 1])
    ensures path[pos] != '/' ==> fs.Mkdir(path[..pos + 1]).IsDir(path[..pos + 1])
  {
    forall i | 0 <= i < pos && path[i] == '/'
      ensures fs.IsDir(path[..i + 1])
    {
      assert Stops(path, i);
    }
    var n := FrontOf(path, pos);
    FrontIsDir(fs, path, pos);
    CutPrefix(path, n, pos);
    if path[pos] == '/' {
      BodyMakesDir(fs, path[..n], path[n..pos]);
    } else {
      PieceMakesDir(fs, path[..n], path[n..pos + 1]);
    }
  }

  lemma PrefixesStay(fs: FileSystem, gs: FileSystem, path: string, idx: nat)
    requires idx <= |path| && fs.dirs <= gs.dirs && fs.cwd == gs.cwd && PrefixesAreDirs(fs, path, idx)
    ensures PrefixesAreDirs(gs, path, idx)
  {
    forall i | 0 <= i < idx && Stops(path, i)
      ensures gs.IsDir(path[..i + 1])
    {
      ReachableGrows(fs, gs, fs.Start(path[..i + 1]), Segments(path[..i + 1]));
    }
  }

  lemma NothingStill(fs: FileSystem, gs: FileSystem, path: string)
    requires gs.files == fs.files && gs.cwd == fs.cwd && NothingInTheWay(fs, path)
    ensures NothingInTheWay(gs, path)
  {
    forall i | 0 <= i < |path| && Stops(path, i)
      ensures gs.Target(path[..i + 1]) !in gs.files
    {
      assert gs.Target(path[..i + 1]) == fs.Target(path[..i + 1]);
    }
  }

  /** One round at a separator. */
  lemma StopRound(fs: FileSystem, path: string, pos: nat)
    requires fs.Valid() && pos < |path| && IsSeparator(path[pos])
    requires PrefixesAreDirs(fs, path, pos) && NothingInTheWay(fs, path)
    ensures var gs := EnsureDir(fs, path[..pos + 1]);
            gs.Valid() && PrefixesAreDirs(gs, path, pos + 1) && NothingInTheWay(gs, path)
  {
    var gs := EnsureDir(fs, path[..pos + 1]);
    assert Stops(path, pos);
    EnsureDirKeeps(fs, path[..pos + 1]);
    StopMakesDir(fs, path, pos);
    PrefixesStay(fs, gs, path, pos);
    NothingStill(fs, gs, path);
  }

  lemma {:induction false} AllRoundsWork(fs: FileSystem, path: string, idx: nat)
    requires fs.Valid() && idx <= |path| && PrefixesAreDirs(fs, path, idx) && NothingInTheWay(fs, path)
    ensures var gs := Rounds(fs, path, idx);
            var last := if path != "" && !IsSeparator(path[|path| - 1]) then |path| - 1 else |path|;
            idx <= last ==> PrefixesAreDirs(gs, path, last) && NothingInTheWay(gs, path)
    decreases |path| - idx
  {
    if idx < |path| {
      if IsSeparator(path[idx]) {
        StopRound(fs, path, idx);
        AllRoundsWork(EnsureDir(fs, path[..idx + 1]), path, idx + 1);
      } else if idx + 1 < |path| {
        AllRoundsWork(fs, path, idx + 1);
      } else {
        assert Rounds(fs, path, idx) == fs;
      }
    }
  }

  /** The last mkdir, for a path that ends in no separator. */
  lemma LastMkdir(fs: FileSystem, path: string)
    requires fs.Valid() && path != "" && !IsSeparator(path[|path| - 1])
    requires PrefixesAreDirs(fs, path, |path| - 1) && NothingInTheWay(fs, path)
    ensures PrefixesAreDirs(fs.Mkdir(path), path, |path|)
  {
    var pos: nat := |path| - 1;
    assert path[..pos + 1] == path && Stops(path, pos);
    MkdirKeeps(fs, path);
    StopMakesDir(fs, path, pos);
    PrefixesStay(fs, fs.Mkdir(path), path, pos);
  }

  lemma FileBlocksPath(fs: FileSystem, gs: FileSystem, path: string)
    requires gs.Valid() && gs.files == fs.files && gs.cwd == fs.cwd && !NothingInTheWay(fs, path)
    ensures !PrefixesAreDirs(gs, path, |path|)
  {
    var i :| 0 <= i < |path| && Stops(path, i) && fs.Target(path[..i + 1]) in fs.files;
    var p := path[..i + 1];
    if gs.IsDir(p) {
      ReachableIsDir(gs, gs.Start(p), Segments(p));
    }
  }

  /** Afterwards the path itself and every prefix of it that ends in a slash or a
      backslash is a directory, if and only if no regular file stands in the place
      of one of them. */
  lemma {:induction false} CreatesThePath(fs: FileSystem, path: string)
    requires fs.Valid()
    ensures PrefixesAreDirs(Created(fs, path), path, |path|) <==> NothingInTheWay(fs, path)
  {
    var hs := Rounds(fs, path, 0);
    RoundsKeep(fs, path, 0);
    MkdirKeeps(hs, path);
    if !NothingInTheWay(fs, path) {
      FileBlocksPath(fs, Created(fs, path), path);
    } else {
      AllRoundsWork(fs, path, 0);
      if path != "" && !IsSeparator(path[|path| - 1]) {
        LastMkdir(hs, path);
      }
    }
  }

  predicate HasSeparator(name: string) { '/' in name || '\\' in name }

  /** The part of a name up to and including its last separator, or a dot. */
  lemma {:induction false} PathOfIsPrefix(name: string)
    ensures !HasSeparator(name) ==> PathOf(name) == "."
    ensures HasSeparator(name) ==>
              var p := PathOf(name);
              && p != "" && p <= name && (p[|p| - 1] == '/' || p[|p| - 1] == '\\')
              && '/' !in name[|p|..] && '\\' !in name[|p|..]
  {
    if name != "" && !IsSeparator(name[|name| - 1]) && HasSeparator(name) {
      var shorter := name[..|name| - 1];
      PathOfIsPrefix(shorter);
      var i :| 0 <= i < |name| && IsSeparator(name[i]);
      assert shorter[i] == name[i];
      assert PathOf(name) == PathOf(shorter);
    }
  }

  lemma SamePrefixes(fs: FileSystem, path: string, name: string)
    requires path <= name && forall i | |path| <= i < |name| :: !IsSeparator(name[i])
    ensures NoFileInTheWay(fs, name) <==> NoFileInTheWay(fs, path)
    ensures SlashPrefixesAreDirs(fs, path, |path|) <==> SlashPrefixesAreDirs(fs, name, |name|)
  {
    assert forall i | 0 <= i < |path| :: path[i] == name[i] && path[..i + 1] == name[..i + 1];
    assert forall i | 0 <= i < |name| && name[i] == '/' :: i < |path|;
  }

  /** What FileSink relies on: after creat_dircetory(path(name)) every directory
      the file name mentions exists, if and only if no regular file is in the way. */
  lemma {:induction false} FileNameDirectoriesExist(fs: FileSystem, name: string)
    requires fs.Valid()
    ensures SlashPrefixesAreDirs(Created(fs, PathOf(name)), name, |name|) <==> NoFileInTheWay(fs, name)
  {
    PathOfIsPrefix(name);
    if HasSeparator(name) {
      SamePrefixes(fs, PathOf(name), name);
      CreatesEveryPrefix(fs, PathOf(name));
      SamePrefixes(Created(fs, PathOf(name)), PathOf(name), name);
    }
  }
}
