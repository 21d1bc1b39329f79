/** From push to disk: an asynchronous logger whose k-th sink is a rolling file
    sink, on every run and for every clock. */
module LogToDisk {
  import opened Text
  import opened LooperModel
  import opened LooperTheorems
  import D = RollingSink

  /** The records in each file, when the sink's messages are these batches. */
  function RecordsOf(pieces: seq<D.Piece>, batches: seq<seq<Record>>): (r: seq<seq<Record>>)
    requires |D.Messages(pieces)| == |batches|
    ensures |r| == |pieces|
  {
    if pieces == [] then []
    else
      var n := |pieces[0].messages|;
      [Flat(batches[..n])] + RecordsOf(pieces[1..], batches[n..])
  }

  lemma FlatEachSplit(batches: seq<seq<Record>>, first: seq<string>, rest: seq<string>)
    requires first + rest == FlatEach(batches)
    ensures |first| <= |batches|
    ensures first == FlatEach(batches[..|first|]) && rest == FlatEach(batches[|first|..])
  {
    var n := |first|;
    assert |first + rest| == |batches|;
    forall i | 0 <= i < n
      ensures first[i] == FlatEach(batches[..n])[i]
    {
      assert (first + rest)[i] == first[i];
    }
    forall i | 0 <= i < |rest|
      ensures rest[i] == FlatEach(batches[n..])[i]
    {
      assert (first + rest)[n + i] == rest[i];
    }
  }

  /** What the first file and the later ones take of the batches. */
  lemma FirstFile(pieces: seq<D.Piece>, batches: seq<seq<Record>>) returns (n: nat)
    requires pieces != [] && D.Messages(pieces) == FlatEach(batches)
    ensures n == |pieces[0].messages| && n <= |batches|
    ensures Flat(pieces[0].messages) == Flat(Flat(batches[..n]))
    ensures D.Messages(pieces[1..]) == FlatEach(batches[n..])
    ensures RecordsOf(pieces, batches) == [Flat(batches[..n])] + RecordsOf(pieces[1..], batches[n..])
  {
    n := |pieces[0].messages|;
    FlatEachSplit(batches, pieces[0].messages, D.Messages(pieces[1..]));
    FlatFlat(batches[..n]);
  }

  lemma FirstAndRest(batches: seq<seq<Record>>, n: nat, rest: seq<seq<Record>>)
    requires n <= |batches| && Flat(rest) == Flat(batches[n..])
    ensures Flat([Flat(batches[..n])] + rest) == Flat(batches)
  {
    FlatCons(Flat(batches[..n]), rest);
    FlatAppend(batches[..n], batches[n..]);
    assert batches == batches[..n] + batches[n..];
  }

  /** The files' records in order are those of the batches. */
  lemma {:induction false} RecordsAreAll(pieces: seq<D.Piece>, batches: seq<seq<Record>>)
    requires D.Messages(pieces) == FlatEach(batches)
    ensures Flat(RecordsOf(pieces, batches)) == Flat(batches)
  {
    if pieces != [] {
      var n := FirstFile(pieces, batches);
      RecordsAreAll(pieces[1..], batches[n..]);
      FirstAndRest(batches, n, RecordsOf(pieces[1..], batches[n..]));
    }
  }

  /** File i holds the text of its records. */
  lemma {:induction false} FileHoldsRecords(pieces: seq<D.Piece>, batches: seq<seq<Record>>, i: nat)
    requires D.Messages(pieces) == FlatEach(batches) && i < |pieces|
    ensures Flat(pieces[i].messages) == Flat(RecordsOf(pieces, batches)[i])
  {
    var n := FirstFile(pieces, batches);
    if i > 0 {
      FileHoldsRecords(pieces[1..], batches[n..], i - 1);
    }
  }

  /** What a looper's k-th sink makes of its calls, when it is a rolling sink. */
  ghost predicate Feeds(t: State, k: nat, calls: seq<(string, D.LocalTime)>) {
    k < |t.sinks| && D.DataOf(calls) == t.sinks[k]
  }

  /** End to end, for every run, clock and size limit: every file of the sink holds
      what it held before plus whole records only; the files' records in order are
      a prefix of everything accepted, in mutex order, none missing, doubled or
      split over two files. The i-th file has the configured base name and the
      number i. */
  lemma FilesHoldWhatWasAccepted(s: State, steps: seq<Step>, k: nat, basename: string, maxSize: nat,
                                 disk0: D.Disk, now: D.LocalTime, calls: seq<(string, D.LocalTime)>)
    returns (records: seq<seq<Record>>)
    requires Init(s) && Legal(s, steps) && Feeds(Exec(s, steps), k, calls)
    ensures var files := D.LogAll(D.Create(basename, maxSize, disk0, now), calls);
            && |records| == |files.pieces|
            && (forall i | 0 <= i < |records| ::
                  D.Content(files.disk, files.pieces[i].name)
                  == Some(D.Before(disk0, files.pieces[i].name) + Flat(records[i])))
            && (forall i | 0 <= i < |records| :: D.Numbered(basename, files.pieces[i], i))
    ensures Flat(records) == Flat(DeliveredTo(Exec(s, steps), k)) && Flat(records) <= Accepted(s, steps)
  {
    var t := Exec(s, steps);
    var files := D.LogAll(D.Create(basename, maxSize, disk0, now), calls);
    RunHistory(s, steps);
    NoRecordIsSplit(s, steps, k);
    D.RollingIsLossless(basename, maxSize, disk0, now, calls);
    RecordsAreAll(files.pieces, DeliveredTo(t, k));
    records := RecordsOf(files.pieces, DeliveredTo(t, k));
    forall i | 0 <= i < |records|
      ensures Flat(files.pieces[i].messages) == Flat(records[i])
    {
      FileHoldsRecords(files.pieces, DeliveredTo(t, k), i);
    }
  }

  /** And once the consumer leaves its loop, the files hold everything accepted
      until then, except records without a byte that came after the last swap. */
  lemma FilesAreCompleteAtExit(s: State, steps: seq<Step>, k: nat, basename: string, maxSize: nat,
                               disk0: D.Disk, now: D.LocalTime, calls: seq<(string, D.LocalTime)>)
    returns (records: seq<seq<Record>>)
    requires Init(s) && Legal(s, steps) && Feeds(Exec(s, steps), k, calls)
    requires Enabled(Exec(s, steps), ConsumerStep) && NextConsumer(Exec(s, steps)).consumer.Exited?
    ensures var files := D.LogAll(D.Create(basename, maxSize, disk0, now), calls);
            && |records| == |files.pieces|
            && (forall i | 0 <= i < |records| ::
                  D.Content(files.disk, files.pieces[i].name)
                  == Some(D.Before(disk0, files.pieces[i].name) + Flat(records[i])))
            && (forall i | 0 <= i < |records| :: D.Numbered(basename, files.pieces[i], i))
    ensures var late := Exec(s, steps).staged;
            Flat(records) + late == Accepted(s, steps) && Flat(late) == ""
  {
    var t := Exec(s, steps);
    records := FilesHoldWhatWasAccepted(s, steps, k, basename, maxSize, disk0, now, calls);
    InitInv(s);
    RunKeepsInv(s, steps);
    RunHistory(s, steps);
    ExitIsDrained(t);
    assert Flat(s.batches) + s.staged + Accepted(s, steps) == Accepted(s, steps);
  }
}
