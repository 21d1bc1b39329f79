/** http/logs/logger.hpp and the single-threaded parts of http/logs/looper.hpp:
    the loops over the sinks and the two critical sections of the looper. A sink
    is the list of the arguments it was called with. */
module Loggers {
  import opened LogBuffer
  import LM = LooperModel

  /** One record handed to every sink. */
  function LogToAll(sinks: seq<seq<string>>, data: string): (r: seq<seq<string>>)
    ensures |r| == |sinks|
    ensures forall k | 0 <= k < |sinks| :: r[k] == sinks[k] + [data]
  {
    seq(|sinks|, k requires 0 <= k < |sinks| => sinks[k] + [data])
  }

  /** SyncLogger called with these records, one after the other. */
  function SyncRun(sinks: seq<seq<string>>, records: seq<string>): (r: seq<seq<string>>)
    ensures |r| == |sinks|
    decreases records
  {
    if records == [] then sinks else SyncRun(LogToAll(sinks, records[0]), records[1..])
  }

  lemma {:induction false} SyncRunAppends(sinks: seq<seq<string>>, records: seq<string>, k: nat)
    requires k < |sinks|
    ensures SyncRun(sinks, records)[k] == sinks[k] + records
    decreases records
  {
    if records != [] {
      SyncRunAppends(LogToAll(sinks, records[0]), records[1..], k);
      assert sinks[k] + [records[0]] + records[1..] == sinks[k] + records;
    } else {
      assert sinks[k] + records == sinks[k];
    }
  }

  class SyncLogger {
    var sinks: array<seq<string>>

    constructor (sinks: array<seq<string>>)
      ensures this.sinks == sinks
    {
      this.sinks := sinks;
    }

    /** The body of SyncLogger::log, under its mutex. */
    method Log(data: string)
      modifies sinks
      ensures sinks[..] == LogToAll(old(sinks[..]), data)
    {
      if sinks.Length == 0 {
        return;
      }
      for k := 0 to sinks.Length
        invariant forall j | 0 <= j < k :: sinks[j] == old(sinks[j]) + [data]
        invariant forall j | k <= j < sinks.Length :: sinks[j] == old(sinks[j])
      {
        sinks[k] := sinks[k] + [data];
      }
    }
  }

  /** AsyncLooper together with the AsyncLogger whose `reallog` it calls back. */
  class AsyncLooper {
    const looperType: LM.AsyncType
    const proBuf: Buffer
    const conBuf: Buffer
    const sinks: array<seq<string>>

    ghost predicate Valid()
      reads this, proBuf, conBuf
    {
      && proBuf != conBuf && proBuf.store != conBuf.store
      && proBuf.Valid() && conBuf.Valid()
    }

    constructor (looperType: LM.AsyncType, sinks: array<seq<string>>)
      ensures Valid() && fresh(proBuf) && fresh(conBuf) && fresh(proBuf.store) && fresh(conBuf.store)
      ensures this.looperType == looperType && this.sinks == sinks
      ensures proBuf.View() == EMPTY && conBuf.View() == EMPTY
    {
      var p := new Buffer();
      var c := new Buffer();
      this.looperType, this.sinks, proBuf, conBuf := looperType, sinks, p, c;
    }

    /** This object's buffers and sinks are those of the step system's state. */
    ghost predicate Implements(s: LM.State)
      reads this, proBuf, conBuf, proBuf.store, conBuf.store, sinks
    {
      && Valid() && looperType == s.mode
      && proBuf.View() == s.pro && conBuf.View() == s.con && sinks[..] == s.sinks
    }

    /** The wait predicate of `push`. */
    method HasRoom(len: nat, ghost s: LM.State) returns (b: bool)
      requires Implements(s)
      ensures b == s.HasRoom(len)
    {
      if looperType == LM.ASYNC_UNSAFE {
        return true;
      }
      var free := proBuf.WriteAbleSize();
      b := free >= len;
    }

    /** `push` once its wait is over: implements the producer's appending step. */
    method Append(data: string, ghost s: LM.State, ghost i: nat)
      requires Implements(s) && LM.Enabled(s, LM.ProducerStep(i)) && s.producers[i] == LM.Appending(data)
      modifies proBuf, proBuf.store
      ensures Implements(LM.Next(s, LM.ProducerStep(i)))
    {
      proBuf.Push(data);
    }

    /** The exchange in `threadEntry`: implements the consumer's swapping step. */
    method SwapBuffers(ghost s: LM.State)
      requires Implements(s) && s.consumer.Swapping?
      modifies proBuf, conBuf
      ensures Implements(LM.Next(s, LM.ConsumerStep))
    {
      conBuf.Swap(proBuf);
    }

    /** AsyncLogger::reallog: the whole batch goes to every sink. */
    method RealLog()
      requires Valid()
      modifies sinks
      ensures sinks[..] == LogToAll(old(sinks[..]), conBuf.View().unread)
    {
      if sinks.Length == 0 {
        return;
      }
      for k := 0 to sinks.Length
        invariant forall j | 0 <= j < k :: sinks[j] == old(sinks[j]) + [conBuf.View().unread]
        invariant forall j | k <= j < sinks.Length :: sinks[j] == old(sinks[j])
      {
        sinks[k] := sinks[k] + [conBuf.store[conBuf.readerIdx..conBuf.writerIdx]];
      }
    }

    /** `_con_buf.reset()`: implements the consumer's resetting step. */
    method ResetConsumerBuffer(ghost s: LM.State)
      requires Implements(s) && s.consumer.Resetting?
      modifies conBuf
      ensures Implements(LM.Next(s, LM.ConsumerStep))
    {
      conBuf.Reset();
    }
  }

  // The delivery loop in the step system is RealLog, one sink per step.

  function DeliverySteps(n: nat): seq<LM.Step> {
    if n == 0 then [] else [LM.ConsumerStep] + DeliverySteps(n - 1)
  }

  /** The state once the batch has been handed to all the remaining sinks. */
  function Handed(s: LM.State): LM.State
    requires s.consumer.Delivering? && s.consumer.sink <= |s.sinks|
  {
    s.(consumer := LM.Delivering(|s.sinks|),
       sinks := s.sinks[..s.consumer.sink] + LogToAll(s.sinks[s.consumer.sink..], s.con.unread))
  }

  lemma LogToAllAt(before: seq<seq<string>>, k: nat, data: string)
    requires k < |before|
    ensures var after := before[k := before[k] + [data]];
            after[..k + 1] + LogToAll(after[k + 1..], data) == before[..k] + LogToAll(before[k..], data)
  {
  }

  lemma OneDelivery(s: LM.State)
    requires s.consumer.Delivering? && s.consumer.sink < |s.sinks|
    ensures var t := LM.NextConsumer(s);
            && t.consumer == LM.Delivering(s.consumer.sink + 1) && |t.sinks| == |s.sinks|
            && Handed(t) == Handed(s)
  {
    LogToAllAt(s.sinks, s.consumer.sink, s.con.unread);
  }

  lemma {:induction false} DeliveryIsRealLog(s: LM.State)
    requires s.consumer.Delivering? && s.consumer.sink <= |s.sinks|
    ensures LM.Legal(s, DeliverySteps(|s.sinks| - s.consumer.sink))
    ensures LM.Exec(s, DeliverySteps(|s.sinks| - s.consumer.sink)) == Handed(s)
    decreases |s.sinks| - s.consumer.sink
  {
    var k := s.consumer.sink;
    if k == |s.sinks| {
      assert s.sinks[..k] + LogToAll(s.sinks[k..], s.con.unread) == s.sinks;
    } else {
      var t := LM.NextConsumer(s);
      OneDelivery(s);
      DeliveryIsRealLog(t);
      assert DeliverySteps(|s.sinks| - k)[1..] == DeliverySteps(|t.sinks| - (k + 1));
      assert LM.Enabled(s, LM.ConsumerStep) && LM.Next(s, LM.ConsumerStep) == t;
    }
  }
}
