/** http/logs/sink.hpp: the sink that starts a new file once the current one has
    reached its size limit. */
module RollingSink {
  import opened Text

  /** The local time fields a file name is built from. */
  datatype LocalTime = LocalTime(year: nat, month: nat, day: nat, hour: nat, minute: nat, second: nat)

  type Disk = map<string, string>

  /** A file of this sink and the messages that went into it. */
  datatype Piece = Piece(name: string, messages: seq<string>)

  /** `pieces` is history: every file of this sink so far, the current one last. */
  datatype Sink = Sink(basename: string, maxSize: nat, disk: Disk, current: string, curSize: nat, nameCount: nat,
                       pieces: seq<Piece>)

  /** Nothing is padded. */
  function Stamp(t: LocalTime): string {
    Decimal(t.year) + Decimal(t.month) + Decimal(t.day) + Decimal(t.hour) + Decimal(t.minute) + Decimal(t.second)
  }

  function FileName(basename: string, stamp: string, count: nat): string {
    basename + stamp + "-" + Decimal(count) + ".log"
  }

  /** The name of the count-th file when it is made at this time: the base name, the
      time from the year down to the second with nothing padded, and the counter. */
  predicate NamedAt(name: string, basename: string, t: LocalTime, count: nat) {
    name == basename
            + (Decimal(t.year) + (Decimal(t.month) + (Decimal(t.day)
               + (Decimal(t.hour) + (Decimal(t.minute) + (Decimal(t.second)
                  + ("-" + (Decimal(count) + ".log"))))))))
  }

  lemma StampFirst(t: LocalTime, tail: string)
    ensures Stamp(t) + tail
            == Decimal(t.year) + (Decimal(t.month) + (Decimal(t.day)
               + (Decimal(t.hour) + (Decimal(t.minute) + (Decimal(t.second) + tail)))))
  {
    var y, m, d := Decimal(t.year), Decimal(t.month), Decimal(t.day);
    var h, i, s := Decimal(t.hour), Decimal(t.minute), Decimal(t.second);
    Assoc(y + m + d + h + i, s, tail);
    Assoc(y + m + d + h, i, s + tail);
    Assoc(y + m + d, h, i + (s + tail));
    Assoc(y + m, d, h + (i + (s + tail)));
    Assoc(y, m, d + (h + (i + (s + tail))));
  }

  lemma FileNameIs(name: string, basename: string, t: LocalTime, count: nat)
    ensures NamedAt(name, basename, t, count) <==> name == FileName(basename, Stamp(t), count)
  {
    var c := Decimal(count);
    StampFirst(t, "-" + (c + ".log"));
    Assoc(basename, Stamp(t), "-");
    Assoc(basename, Stamp(t) + "-", c);
    Assoc(basename, Stamp(t) + "-" + c, ".log");
    Assoc(Stamp(t) + "-", c, ".log");
    Assoc(Stamp(t), "-", c + ".log");
  }

  /** Opening in append mode creates a missing file and keeps an existing one. */
  function OpenAppend(disk: Disk, name: string): Disk {
    if name in disk then disk else disk[name := ""]
  }

  function Opened(s: Sink, t: LocalTime): Sink {
    var name := FileName(s.basename, Stamp(t), s.nameCount);
    s.(disk := OpenAppend(s.disk, name), current := name, curSize := 0, nameCount := s.nameCount + 1,
       pieces := s.pieces + [Piece(name, [])])
  }

  function Create(basename: string, maxSize: nat, disk: Disk, t: LocalTime): Sink {
    Opened(Sink(basename, maxSize, disk, "", 0, 0, []), t)
  }

  function Written(s: Sink, data: string): Sink
    requires s.current in s.disk && s.pieces != []
  {
    var last := |s.pieces| - 1;
    s.(disk := s.disk[s.current := s.disk[s.current] + data], curSize := s.curSize + |data|,
       pieces := s.pieces[last := s.pieces[last].(messages := s.pieces[last].messages + [data])])
  }

  /** One call of log; `t` is the time it would see if it has to roll. */
  function Logged(s: Sink, data: string, t: LocalTime): Sink
    requires s.current in s.disk && s.pieces != []
  {
    Written(if s.curSize >= s.maxSize then Opened(s, t) else s, data)
  }

  function LogAll(s: Sink, calls: seq<(string, LocalTime)>): (r: Sink)
    requires s.current in s.disk && s.pieces != []
    decreases calls
  {
    if calls == [] then s else LogAll(Logged(s, calls[0].0, calls[0].1), calls[1..])
  }

  // -------------------------------------------------------------------- names

  lemma CounterTail(count: nat)
    ensures '-' !in Decimal(count) + ".log"
  {
    var t := Decimal(count) + ".log";
    assert forall i | 0 <= i < |Decimal(count)| :: IsDigit(Decimal(count)[i]);
  }

  /** Text after the last '-' is determined by the whole. */
  lemma TailsAgree(x: string, t: string, y: string, u: string)
    requires x + "-" + t == y + "-" + u && '-' !in t && '-' !in u
    ensures t == u
  {
    var s := x + "-" + t;
    assert s[|x|] == '-' && s[|y|] == '-';
    assert forall i | |x| < i < |s| :: s[i] == t[i - |x| - 1] && s[i] != '-';
    assert forall i | |y| < i < |s| :: s[i] == u[i - |y| - 1] && s[i] != '-';
    assert t == s[|x| + 1..] && u == s[|y| + 1..];
  }

  /** Names with different counters differ, whatever the clock did. */
  lemma NamesDiffer(basename: string, stamp1: string, count1: nat, stamp2: string, count2: nat)
    requires count1 != count2
    ensures FileName(basename, stamp1, count1) != FileName(basename, stamp2, count2)
  {
    var d1, d2 := Decimal(count1), Decimal(count2);
    if FileName(basename, stamp1, count1) == FileName(basename, stamp2, count2) {
      CounterTail(count1);
      CounterTail(count2);
      Assoc(basename + stamp1 + "-", d1, ".log");
      Assoc(basename + stamp2 + "-", d2, ".log");
      TailsAgree(basename + stamp1, d1 + ".log", basename + stamp2, d2 + ".log");
      assert d1 == (d1 + ".log")[..|d1|] && d2 == (d2 + ".log")[..|d2|];
      DecimalInjective(count1, count2);
    }
  }

  /** The stamp alone would not do: two different days share one. */
  lemma StampsCollide()
    ensures Stamp(LocalTime(2024, 1, 11, 0, 0, 0)) == Stamp(LocalTime(2024, 11, 1, 0, 0, 0))
  {
    assert Decimal(1) == "1" && Decimal(11) == Decimal(1) + "1" == "11";
    var y := Decimal(2024);
    assert y + "1" + "11" == y + "11" + "1";
  }

  // --------------------------------------------------------------- invariants

  function Before(disk: Disk, name: string): string {
    if name in disk then disk[name] else ""
  }

  function Size(p: Piece): nat { |Flat(p.messages)| }

  function Messages(pieces: seq<Piece>): seq<string> {
    if pieces == [] then [] else pieces[0].messages + Messages(pieces[1..])
  }

  lemma {:induction false} MessagesSnoc(pieces: seq<Piece>, p: Piece)
    ensures Messages(pieces + [p]) == Messages(pieces) + p.messages
  {
    if pieces == [] {
      assert pieces + [p] == [p];
      assert Messages([p]) == p.messages + Messages([p][1..]) == p.messages;
    } else {
      assert (pieces + [p])[1..] == pieces[1..] + [p];
      MessagesSnoc(pieces[1..], p);
    }
  }

  /** The file was the count-th of its sink, whenever it was made. */
  ghost predicate Numbered(basename: string, p: Piece, count: nat) {
    exists t: LocalTime :: NamedAt(p.name, basename, t, count)
  }

  ghost predicate NamesInv(s: Sink) {
    && s.nameCount == |s.pieces| > 0
    && s.current == s.pieces[|s.pieces| - 1].name
    && (forall i | 0 <= i < |s.pieces| :: Numbered(s.basename, s.pieces[i], i))
  }

  /** A closed file is at least the limit long and, unless the limit is zero,
      was below it before its last message. */
  predicate ClosedSize(maxSize: nat, p: Piece) {
    && maxSize <= Size(p)
    && (maxSize > 0 ==> p.messages != [] && Size(p) < maxSize + |p.messages[|p.messages| - 1]|)
  }

  /** Like a closed file, except that the limit need not be reached. */
  predicate OpenSize(maxSize: nat, p: Piece) {
    && (maxSize > 0 && maxSize <= Size(p) ==>
          p.messages != [] && Size(p) < maxSize + |p.messages[|p.messages| - 1]|)
  }

  ghost predicate SizesInv(s: Sink) {
    && s.pieces != []
    && s.curSize == Size(s.pieces[|s.pieces| - 1])
    && OpenSize(s.maxSize, s.pieces[|s.pieces| - 1])
    && (forall i | 0 <= i < |s.pieces| - 1 :: ClosedSize(s.maxSize, s.pieces[i]))
  }

  function Content(disk: Disk, name: string): Option<string> {
    if name in disk then Some(disk[name]) else None
  }

  /** What should be on disk under a name: the first content plus the messages
      of the last file that got this name. */
  function Expected(disk0: Disk, pieces: seq<Piece>, name: string): Option<string> {
    if pieces == [] then Content(disk0, name)
    else
      var p := pieces[|pieces| - 1];
      if p.name == name then Some(Before(disk0, name) + Flat(p.messages))
      else Expected(disk0, pieces[..|pieces| - 1], name)
  }

  ghost predicate DiskInv(s: Sink, disk0: Disk) {
    forall name: string :: Content(s.disk, name) == Expected(disk0, s.pieces, name)
  }

  ghost predicate Inv(s: Sink, disk0: Disk) { NamesInv(s) && SizesInv(s) && DiskInv(s, disk0) }

  lemma {:induction false} ExpectedElsewhere(disk0: Disk, pieces: seq<Piece>, name: string)
    requires forall i | 0 <= i < |pieces| :: pieces[i].name != name
    ensures Expected(disk0, pieces, name) == Content(disk0, name)
  {
    if pieces != [] {
      ExpectedElsewhere(disk0, pieces[..|pieces| - 1], name);
    }
  }

  lemma {:induction false} ExpectedAt(disk0: Disk, pieces: seq<Piece>, i: nat)
    requires i < |pieces| && forall j | i < j < |pieces| :: pieces[j].name != pieces[i].name
    ensures Expected(disk0, pieces, pieces[i].name) == Some(Before(disk0, pieces[i].name) + Flat(pieces[i].messages))
  {
    if i < |pieces| - 1 {
      ExpectedAt(disk0, pieces[..|pieces| - 1], i);
    }
  }

  lemma NamesDistinct(s: Sink, i: nat, j: nat)
    requires NamesInv(s) && i < |s.pieces| && j < |s.pieces| && i != j
    ensures s.pieces[i].name != s.pieces[j].name
  {
    assert Numbered(s.basename, s.pieces[i], i);
    var a :| NamedAt(s.pieces[i].name, s.basename, a, i);
    assert Numbered(s.basename, s.pieces[j], j);
    var b :| NamedAt(s.pieces[j].name, s.basename, b, j);
    FileNameIs(s.pieces[i].name, s.basename, a, i);
    FileNameIs(s.pieces[j].name, s.basename, b, j);
    NamesDiffer(s.basename, Stamp(a), i, Stamp(b), j);
  }

  lemma NewNameIsNew(s: Sink, t: LocalTime, i: nat)
    requires NamesInv(s) && i < |s.pieces|
    ensures s.pieces[i].name != FileName(s.basename, Stamp(t), s.nameCount)
  {
    assert Numbered(s.basename, s.pieces[i], i);
    var a :| NamedAt(s.pieces[i].name, s.basename, a, i);
    FileNameIs(s.pieces[i].name, s.basename, a, i);
    NamesDiffer(s.basename, Stamp(a), i, Stamp(t), s.nameCount);
  }

  lemma OpenedKeepsNames(s: Sink, t: LocalTime)
    requires NamesInv(s)
    ensures NamesInv(Opened(s, t))
  {
    var u := Opened(s, t);
    FileNameIs(u.current, s.basename, t, |s.pieces|);
    assert NamedAt(u.pieces[|s.pieces|].name, u.basename, t, |s.pieces|);
    assert Numbered(u.basename, u.pieces[|s.pieces|], |s.pieces|);
  }

  lemma OpenedKeepsSizes(s: Sink, t: LocalTime)
    requires SizesInv(s) && s.curSize >= s.maxSize
    ensures SizesInv(Opened(s, t))
    ensures Messages(Opened(s, t).pieces) == Messages(s.pieces)
  {
    MessagesSnoc(s.pieces, Piece(Opened(s, t).current, []));
    assert Messages(s.pieces) + [] == Messages(s.pieces);
  }

  lemma OpenedKeepsDisk(s: Sink, disk0: Disk, t: LocalTime)
    requires NamesInv(s) && DiskInv(s, disk0)
    ensures DiskInv(Opened(s, t), disk0)
  {
    var u := Opened(s, t);
    var new_ := u.current;
    forall i | 0 <= i < |s.pieces|
      ensures s.pieces[i].name != new_
    {
      NewNameIsNew(s, t, i);
    }
    ExpectedElsewhere(disk0, s.pieces, new_);
    forall name: string
      ensures Content(u.disk, name) == Expected(disk0, u.pieces, name)
    {
      assert Content(s.disk, name) == Expected(disk0, s.pieces, name);
      assert u.pieces[..|u.pieces| - 1] == s.pieces;
      assert Before(disk0, name) + "" == Before(disk0, name);
    }
  }

  lemma WrittenKeepsDisk(s: Sink, disk0: Disk, data: string)
    requires NamesInv(s) && DiskInv(s, disk0) && s.current in s.disk
    ensures DiskInv(Written(s, data), disk0)
  {
    var u := Written(s, data);
    var last := |s.pieces| - 1;
    FlatSnoc(s.pieces[last].messages, data);
    Assoc(Before(disk0, s.current), Flat(s.pieces[last].messages), data);
    forall name: string
      ensures Content(u.disk, name) == Expected(disk0, u.pieces, name)
    {
      assert Content(s.disk, name) == Expected(disk0, s.pieces, name);
      assert u.pieces[..last] == s.pieces[..last];
    }
  }

  lemma WrittenKeepsSizes(s: Sink, data: string)
    requires SizesInv(s) && s.current in s.disk && (s.curSize < s.maxSize || s.maxSize == 0)
    ensures SizesInv(Written(s, data))
    ensures Messages(Written(s, data).pieces) == Messages(s.pieces) + [data]
  {
    var u := Written(s, data);
    var last := |s.pieces| - 1;
    FlatSnoc(s.pieces[last].messages, data);
    assert u.pieces[..last] == s.pieces[..last];
    MessagesSnoc(s.pieces[..last], s.pieces[last]);
    MessagesSnoc(u.pieces[..last], u.pieces[last]);
    assert s.pieces == s.pieces[..last] + [s.pieces[last]] && u.pieces == u.pieces[..last] + [u.pieces[last]];
    Assoc(Messages(s.pieces[..last]), s.pieces[last].messages, [data]);
  }

  lemma WrittenKeepsNames(s: Sink, data: string)
    requires NamesInv(s) && s.current in s.disk
    ensures NamesInv(Written(s, data))
  {
    var u := Written(s, data);
    forall i | 0 <= i < |u.pieces|
      ensures Numbered(u.basename, u.pieces[i], i)
    {
      assert Numbered(s.basename, s.pieces[i], i);
      assert u.pieces[i].name == s.pieces[i].name;
    }
  }

  lemma LoggedKeepsInv(s: Sink, disk0: Disk, data: string, t: LocalTime)
    requires Inv(s, disk0) && s.current in s.disk
    ensures var u := Logged(s, data, t);
            && Inv(u, disk0) && u.current in u.disk && u.maxSize == s.maxSize && u.basename == s.basename
            && Messages(u.pieces) == Messages(s.pieces) + [data]
  {
    var u := if s.curSize >= s.maxSize then Opened(s, t) else s;
    if s.curSize >= s.maxSize {
      OpenedKeepsNames(s, t);
      OpenedKeepsSizes(s, t);
      OpenedKeepsDisk(s, disk0, t);
    }
    WrittenKeepsNames(u, data);
    WrittenKeepsSizes(u, data);
    WrittenKeepsDisk(u, disk0, data);
  }

  function DataOf(calls: seq<(string, LocalTime)>): seq<string> {
    if calls == [] then [] else [calls[0].0] + DataOf(calls[1..])
  }

  lemma {:induction false} LogAllKeepsInv(s: Sink, disk0: Disk, calls: seq<(string, LocalTime)>)
    requires Inv(s, disk0) && s.current in s.disk
    ensures var r := LogAll(s, calls);
            && Inv(r, disk0) && r.maxSize == s.maxSize && r.basename == s.basename
            && Messages(r.pieces) == Messages(s.pieces) + DataOf(calls)
    decreases calls
  {
    if calls == [] {
      assert Messages(s.pieces) + [] == Messages(s.pieces);
    } else {
      var u := Logged(s, calls[0].0, calls[0].1);
      LoggedKeepsInv(s, disk0, calls[0].0, calls[0].1);
      LogAllKeepsInv(u, disk0, calls[1..]);
      Assoc(Messages(s.pieces), [calls[0].0], DataOf(calls[1..]));
    }
  }

  lemma CreateInv(basename: string, maxSize: nat, disk0: Disk, t: LocalTime)
    ensures Inv(Create(basename, maxSize, disk0, t), disk0)
    ensures Messages(Create(basename, maxSize, disk0, t).pieces) == []
  {
    var s := Create(basename, maxSize, disk0, t);
    FileNameIs(s.current, basename, t, 0);
    assert NamedAt(s.pieces[0].name, basename, t, 0);
    assert s.pieces == [Piece(s.current, [])];
    assert s.pieces[..0] == [] && s.pieces[1..] == [];
    forall name: string
      ensures Content(s.disk, name) == Expected(disk0, s.pieces, name)
    {
      assert Before(disk0, name) + "" == Before(disk0, name);
    }
  }

  // ----------------------------------------------------------------- theorems

  /** Rolling is lossless, for every clock and every sequence of calls: the
      files' messages in order are the calls' messages, none split; every file
      holds what it held before plus exactly its messages; no other file changes.
      The files have the base name, some time and their number as names. */
  lemma RollingIsLossless(basename: string, maxSize: nat, disk0: Disk, t: LocalTime, calls: seq<(string, LocalTime)>)
    ensures var s := LogAll(Create(basename, maxSize, disk0, t), calls);
            && Messages(s.pieces) == DataOf(calls)
            && (forall i | 0 <= i < |s.pieces| ::
                  Content(s.disk, s.pieces[i].name)
                  == Some(Before(disk0, s.pieces[i].name) + Flat(s.pieces[i].messages)))
            && (forall name | (forall i | 0 <= i < |s.pieces| :: s.pieces[i].name != name) ::
                  Content(s.disk, name) == Content(disk0, name))
            && (forall i | 0 <= i < |s.pieces| :: Numbered(basename, s.pieces[i], i))
  {
    CreateInv(basename, maxSize, disk0, t);
    LogAllKeepsInv(Create(basename, maxSize, disk0, t), disk0, calls);
    var s := LogAll(Create(basename, maxSize, disk0, t), calls);
    assert [] + DataOf(calls) == DataOf(calls);
    forall i | 0 <= i < |s.pieces|
      ensures Content(s.disk, s.pieces[i].name)
              == Some(Before(disk0, s.pieces[i].name) + Flat(s.pieces[i].messages))
    {
      forall j | i < j < |s.pieces|
        ensures s.pieces[j].name != s.pieces[i].name
      {
        NamesDistinct(s, i, j);
      }
      ExpectedAt(disk0, s.pieces, i);
    }
    forall name | (forall i | 0 <= i < |s.pieces| :: s.pieces[i].name != name)
      ensures Content(s.disk, name) == Content(disk0, name)
    {
      ExpectedElsewhere(disk0, s.pieces, name);
    }
  }

  /** Every closed file is at least the limit long, and with a positive limit
      shorter than the limit plus its last message. */
  lemma ClosedFilesAreFull(basename: string, maxSize: nat, disk0: Disk, t: LocalTime,
                           calls: seq<(string, LocalTime)>, i: nat)
    requires i + 1 < |LogAll(Create(basename, maxSize, disk0, t), calls).pieces|
    ensures ClosedSize(maxSize, LogAll(Create(basename, maxSize, disk0, t), calls).pieces[i])
  {
    CreateInv(basename, maxSize, disk0, t);
    LogAllKeepsInv(Create(basename, maxSize, disk0, t), disk0, calls);
  }

  /** No file name is used twice. */
  lemma FileNamesNeverRepeat(basename: string, maxSize: nat, disk0: Disk, t: LocalTime,
                             calls: seq<(string, LocalTime)>, i: nat, j: nat)
    requires i < j < |LogAll(Create(basename, maxSize, disk0, t), calls).pieces|
    ensures var s := LogAll(Create(basename, maxSize, disk0, t), calls); s.pieces[i].name != s.pieces[j].name
  {
    CreateInv(basename, maxSize, disk0, t);
    LogAllKeepsInv(Create(basename, maxSize, disk0, t), disk0, calls);
    NamesDistinct(LogAll(Create(basename, maxSize, disk0, t), calls), i, j);
  }

  // ---------------------------------------------------------- the sink, in place

  class RollBySizeSink {
    const basename: string
    const maxFsize: nat
    var curFsize: nat
    var nameCount: nat
    var ofs: string          // the file the stream is open on
    var disk: Disk           // the file system
    ghost var pieces: seq<Piece>

    ghost function State(): Sink
      reads this
    {
      Sink(basename, maxFsize, disk, ofs, curFsize, nameCount, pieces)
    }

    ghost predicate Valid()
      reads this
    {
      ofs in disk && pieces != []
    }

    constructor (basename: string, maxSize: nat, disk: Disk, now: LocalTime)
      ensures Valid() && State() == Create(basename, maxSize, disk, now)
    {
      this.basename, this.maxFsize := basename, maxSize;
      curFsize, nameCount, ofs, this.disk, pieces := 0, 0, "", disk, [];
      new;
      var pathname := CreatNewFile(now);
      Open(pathname);
    }

    method CreatNewFile(now: LocalTime) returns (name: string)
      modifies this`nameCount
      ensures name == FileName(basename, Stamp(now), old(nameCount)) && nameCount == old(nameCount) + 1
      ensures NamedAt(name, basename, now, old(nameCount))
    {
      name := basename;
      name := name + Stamp(now);
      name := name + "-";
      name := name + Decimal(nameCount);
      nameCount := nameCount + 1;
      name := name + ".log";
      FileNameIs(name, basename, now, old(nameCount));
    }

    method Open(pathname: string)
      modifies this`disk, this`ofs, this`pieces
      ensures disk == OpenAppend(old(disk), pathname) && ofs == pathname
      ensures pieces == old(pieces) + [Piece(pathname, [])]
    {
      if pathname !in disk {
        disk := disk[pathname := ""];
      }
      ofs := pathname;
      pieces := pieces + [Piece(pathname, [])];
    }

    method Log(data: string, now: LocalTime)
      requires Valid()
      modifies this
      ensures Valid() && State() == Logged(old(State()), data, now)
    {
      if curFsize >= maxFsize {
        var pathname := CreatNewFile(now);
        Open(pathname);
        curFsize := 0;
      }
      disk := disk[ofs := disk[ofs] + data];
      ghost var last := |pieces| - 1;
      pieces := pieces[last := pieces[last].(messages := pieces[last].messages + [data])];
      curFsize := curFsize + |data|;
    }
  }
}
