/**
  Production logging (src/logging.cpp): around every alert a log file gets the last messages before it and a number of
  messages after it.

  The state is described by functions on values; class `Logger` updates it in place. Of every log file the model also
  remembers where in the stream of recorded messages it begins and when it was opened and armed.
*/
module ProdLog {
  import opened Basics

  datatype LogRecord = LogRecord(message: string, level: int)

  /** `history` is at least 1: with no history at all the program reads the last record of an empty queue. */
  datatype Config = Config(level: int, history: nat, future: nat, detectLevel: int)

  /**
    The records of a file; they are those of the stream from `start` on. `triggered` and `armed` are the lengths of the
    stream when the file was opened, and when an alert last set the number of messages still to be written.
  */
  datatype LogFile = LogFile(records: seq<LogRecord>, start: nat, triggered: nat, armed: nat)
  {
    function End(): nat {
      start + |records|
    }
  }

  /** `stream` are all messages that pass the level filter, `closed` the files written before the current one. */
  datatype Prod = Prod(
    stream: seq<LogRecord>,
    history: seq<LogRecord>,
    remaining: nat,
    file: Option<LogFile>,
    closed: seq<LogFile>)

  const IDLE := Prod([], [], 0, None, [])

  function Close(p: Prod): Prod {
    p.(file := None, closed := if p.file.Some? then p.closed + [p.file.value] else p.closed)
  }

  /** The record joins the history. */
  function Remember(c: Config, p: Prod, r: LogRecord): Prod {
    p.(stream := p.stream + [r], history := if |p.history| + 1 > c.history then (p.history + [r])[1..] else p.history + [r])
  }

  /** The record is written, if a file is open, and counts towards the messages still to be written. */
  function WriteRecord(p: Prod, r: LogRecord): Prod
    requires p.remaining > 0
  {
    var p1 := p.(
      file := if p.file.Some? then Some(p.file.value.(records := p.file.value.records + [r])) else None,
      remaining := p.remaining - 1);
    if p1.remaining == 0 then Close(p1) else p1
  }

  /** `prodInit`: a new file begins with the history. */
  function Init(p: Prod, opens: bool): Prod
    requires |p.history| <= |p.stream|
  {
    var n := |p.stream|;
    Close(p).(file := if opens then Some(LogFile(p.history, n - |p.history|, n, n)) else None)
  }

  /** An alert opens a file unless one is being written, and sets the number of messages to follow. */
  function Alert(c: Config, p: Prod, opens: bool): Prod
    requires |p.history| <= |p.stream|
  {
    var p1 :=
      if p.remaining == 0 then Init(p, opens)
      else p.(file := if p.file.Some? then Some(p.file.value.(armed := |p.stream|)) else None);
    p1.(remaining := c.future)
  }

  function Record(c: Config, p: Prod, r: LogRecord): Prod {
    if r.level > c.level then p
    else
      var p1 := Remember(c, p, r);
      if p1.remaining > 0 then WriteRecord(p1, r) else p1
  }

  /** `prodLog`; `opens` tells whether a file can be opened now. */
  function Log(c: Config, p: Prod, r: LogRecord, opens: bool): Prod
    requires |p.history| <= |p.stream|
  {
    var p1 := Record(c, p, r);
    if r.level <= c.detectLevel then
      assert |p1.history| <= |p1.stream|;
      Alert(c, p1, opens)
    else p1
  }

  /** The last `n` records of the stream. */
  function LastOf(stream: seq<LogRecord>, n: nat): seq<LogRecord> {
    if |stream| <= n then stream else stream[|stream| - n..]
  }

  function Min(a: nat, b: nat): nat {
    if a <= b then a else b
  }

  /** A file is a contiguous part of the stream that begins as many messages before its trigger as the history goes back. */
  predicate Slice(c: Config, stream: seq<LogRecord>, f: LogFile) {
    && f.End() <= |stream|
    && f.records == stream[f.start..f.End()]
    && f.start == f.triggered - Min(c.history, f.triggered)
    && f.triggered <= f.End()
  }

  /** A closed file ends exactly `future` messages after the last alert that armed it; without a future, at its trigger. */
  predicate Complete(c: Config, f: LogFile) {
    f.End() == if c.future > 0 then f.armed + c.future else f.triggered
  }

  predicate Consistent(c: Config, p: Prod) {
    && p.history == LastOf(p.stream, c.history)
    && p.remaining <= c.future
    && (forall i :: 0 <= i < |p.closed| ==> Slice(c, p.stream, p.closed[i]) && Complete(c, p.closed[i]))
    && (p.file.Some? ==>
         var f := p.file.value;
         && Slice(c, p.stream, f)
         && f.triggered <= f.armed <= |p.stream|
         && (c.future > 0 ==> p.remaining > 0 && f.End() == |p.stream| && |p.stream| + p.remaining == f.armed + c.future)
         && (c.future == 0 ==> f.End() == f.triggered))
  }

  lemma SliceGrows(c: Config, stream: seq<LogRecord>, r: LogRecord, f: LogFile)
    requires Slice(c, stream, f)
    ensures Slice(c, stream + [r], f)
  {
    assert (stream + [r])[f.start..f.End()] == stream[f.start..f.End()];
  }

  lemma LastOfSnoc(stream: seq<LogRecord>, r: LogRecord, n: nat)
    requires n >= 1
    ensures LastOf(stream + [r], n) == if |LastOf(stream, n)| + 1 > n then (LastOf(stream, n) + [r])[1..] else LastOf(stream, n) + [r]
  {
  }

  /** A file that ends with the stream still does when both get the message. */
  lemma SliceExtended(c: Config, stream: seq<LogRecord>, r: LogRecord, f: LogFile)
    requires Slice(c, stream, f) && f.End() == |stream|
    ensures Slice(c, stream + [r], f.(records := f.records + [r]))
  {
  }

  lemma RecordConsistent(c: Config, p: Prod, r: LogRecord)
    requires c.history >= 1 && Consistent(c, p)
    ensures Consistent(c, Record(c, p, r))
  {
    if r.level <= c.level {
      RememberConsistent(c, p, r);
      if p.remaining > 0 && p.file.Some? {
        SliceExtended(c, p.stream, r, p.file.value);
      }
    }
  }

  lemma RememberConsistent(c: Config, p: Prod, r: LogRecord)
    requires c.history >= 1 && Consistent(c, p)
    ensures var p1 := Remember(c, p, r);
      && p1.history == LastOf(p1.stream, c.history)
      && (forall i :: 0 <= i < |p.closed| ==> Slice(c, p1.stream, p.closed[i]))
      && (p.file.Some? ==> Slice(c, p1.stream, p.file.value))
  {
    LastOfSnoc(p.stream, r, c.history);
    forall i | 0 <= i < |p.closed| ensures Slice(c, p.stream + [r], p.closed[i]) {
      SliceGrows(c, p.stream, r, p.closed[i]);
    }
    if p.file.Some? {
      SliceGrows(c, p.stream, r, p.file.value);
    }
  }

  lemma AlertConsistent(c: Config, p: Prod, opens: bool)
    requires c.history >= 1 && Consistent(c, p)
    ensures Consistent(c, Alert(c, p, opens))
  {
  }

  datatype Happening = Happening(record: LogRecord, opens: bool)

  function Run(c: Config, hs: seq<Happening>): (p: Prod)
    requires c.history >= 1
    ensures Consistent(c, p)
  {
    if hs == [] then IDLE
    else
      var n := |hs| - 1;
      LogConsistent(c, Run(c, hs[..n]), hs[n].record, hs[n].opens);
      Log(c, Run(c, hs[..n]), hs[n].record, hs[n].opens)
  }

  lemma LogConsistent(c: Config, p: Prod, r: LogRecord, opens: bool)
    requires c.history >= 1 && Consistent(c, p)
    ensures Consistent(c, Log(c, p, r, opens))
  {
    RecordConsistent(c, p, r);
    AlertConsistent(c, Record(c, p, r), opens);
  }

  /** The messages of the run that pass the level filter. */
  function Recorded(c: Config, hs: seq<Happening>): seq<LogRecord> {
    if hs == [] then []
    else
      var n := |hs| - 1;
      Recorded(c, hs[..n]) + (if hs[n].record.level <= c.level then [hs[n].record] else [])
  }

  lemma {:induction false} StreamIsRecorded(c: Config, hs: seq<Happening>)
    requires c.history >= 1
    ensures Run(c, hs).stream == Recorded(c, hs)
  {
    if hs != [] {
      StreamIsRecorded(c, hs[..|hs| - 1]);
    }
  }

  /** The file written now, and all files written before. */
  function Files(p: Prod): seq<LogFile> {
    p.closed + if p.file.Some? then [p.file.value] else []
  }

  /**
    Every log file, closed or not, holds a contiguous part of the recorded messages that begins exactly `history` messages
    before its trigger (or with the first message); a closed one ends exactly `future` messages after the last alert that armed it.
  */
  lemma LogWindows(c: Config, hs: seq<Happening>, f: LogFile)
    requires c.history >= 1 && f in Files(Run(c, hs))
    ensures Slice(c, Recorded(c, hs), f)
    ensures f in Run(c, hs).closed ==> Complete(c, f)
  {
    StreamIsRecorded(c, hs);
  }

  /** The i-th message is an alert, recorded or not. */
  predicate IsAlert(c: Config, hs: seq<Happening>, i: nat)
    requires i < |hs|
  {
    hs[i].record.level <= c.detectLevel
  }

  /** How many messages have been recorded once the i-th one has been handled. */
  function RecordedBy(c: Config, hs: seq<Happening>, i: nat): nat
    requires i < |hs|
  {
    |Recorded(c, hs[..i + 1])|
  }

  /** An alert that is handled when `n` messages have been recorded. */
  predicate AlertAt(c: Config, hs: seq<Happening>, n: nat) {
    exists i :: 0 <= i < |hs| && IsAlert(c, hs, i) && RecordedBy(c, hs, i) == n
  }

  /** The alerts that were handled after `n` messages had been recorded all came when at least `end` had been. */
  predicate NoAlertBetween(c: Config, hs: seq<Happening>, n: nat, end: nat) {
    forall i :: 0 <= i < |hs| && IsAlert(c, hs, i) ==> RecordedBy(c, hs, i) <= n || RecordedBy(c, hs, i) >= end
  }

  /** The trigger and the arming of a file are alerts, and no later alert comes before its end; nor at all, while it is written. */
  predicate Tied(c: Config, hs: seq<Happening>, f: LogFile, open: bool) {
    && AlertAt(c, hs, f.triggered)
    && AlertAt(c, hs, f.armed)
    && (if open then NoAlertBetween(c, hs, f.armed, |Recorded(c, hs)| + 1) else NoAlertBetween(c, hs, f.armed, f.End()))
  }

  predicate AllTied(c: Config, hs: seq<Happening>, p: Prod) {
    && (forall k :: 0 <= k < |p.closed| ==> Tied(c, hs, p.closed[k], false))
    && (p.file.Some? ==> Tied(c, hs, p.file.value, true))
  }

  lemma RecordedByPrefix(c: Config, hs: seq<Happening>, i: nat)
    requires hs != [] && i < |hs| - 1
    ensures IsAlert(c, hs[..|hs| - 1], i) == IsAlert(c, hs, i)
    ensures RecordedBy(c, hs[..|hs| - 1], i) == RecordedBy(c, hs, i)
  {
    assert hs[..|hs| - 1][..i + 1] == hs[..i + 1];
  }

  lemma RecordedByLast(c: Config, hs: seq<Happening>)
    requires hs != []
    ensures RecordedBy(c, hs, |hs| - 1) == |Recorded(c, hs)|
  {
    assert hs[..|hs|] == hs;
  }

  lemma AlertStays(c: Config, hs: seq<Happening>, n: nat)
    requires hs != [] && AlertAt(c, hs[..|hs| - 1], n)
    ensures AlertAt(c, hs, n)
  {
    var before := hs[..|hs| - 1];
    var i :| 0 <= i < |before| && IsAlert(c, before, i) && RecordedBy(c, before, i) == n;
    RecordedByPrefix(c, hs, i);
    assert IsAlert(c, hs, i) && RecordedBy(c, hs, i) == n;
  }

  /** One more message leaves a gap without alerts, unless it is an alert inside the gap. */
  lemma GapStays(c: Config, hs: seq<Happening>, n: nat, end: nat)
    requires hs != [] && NoAlertBetween(c, hs[..|hs| - 1], n, end)
    requires hs[|hs| - 1].record.level <= c.detectLevel ==> |Recorded(c, hs)| >= end || |Recorded(c, hs)| <= n
    ensures NoAlertBetween(c, hs, n, end)
  {
    forall i | 0 <= i < |hs| && IsAlert(c, hs, i) ensures RecordedBy(c, hs, i) <= n || RecordedBy(c, hs, i) >= end {
      if i < |hs| - 1 {
        RecordedByPrefix(c, hs, i);
        assert IsAlert(c, hs[..|hs| - 1], i);
      } else {
        RecordedByLast(c, hs);
      }
    }
  }

  /** Up to now no alert can have come after more messages than have been recorded. */
  lemma NoAlertAhead(c: Config, hs: seq<Happening>, n: nat, end: nat)
    requires n >= |Recorded(c, hs)|
    ensures NoAlertBetween(c, hs, n, end)
  {
    forall i | 0 <= i < |hs| ensures RecordedBy(c, hs, i) <= |Recorded(c, hs)| {
      RecordedGrows(c, hs, i + 1);
    }
  }

  lemma {:induction false} RecordedGrows(c: Config, hs: seq<Happening>, i: nat)
    requires i <= |hs|
    ensures |Recorded(c, hs[..i])| <= |Recorded(c, hs)|
  {
    if i == |hs| {
      assert hs[..i] == hs;
    } else {
      assert hs[..|hs| - 1][..i] == hs[..i];
      RecordedGrows(c, hs[..|hs| - 1], i);
    }
  }

  /** A file that is not touched by the message, or is extended by it and perhaps closed. */
  lemma TiedStays(c: Config, hs: seq<Happening>, f: LogFile, f': LogFile, open: bool, open': bool)
    requires hs != [] && Tied(c, hs[..|hs| - 1], f, open)
    requires f'.triggered == f.triggered && f'.armed == f.armed && f'.End() <= |Recorded(c, hs)|
    requires !open ==> !open' && f' == f
    requires open' ==> hs[|hs| - 1].record.level > c.detectLevel
    ensures Tied(c, hs, f', open')
  {
    var before := hs[..|hs| - 1];
    AlertStays(c, hs, f.triggered);
    AlertStays(c, hs, f.armed);
    var end := if open then |Recorded(c, before)| + 1 else f.End();
    forall i | 0 <= i < |before| && IsAlert(c, before, i)
      ensures RecordedBy(c, before, i) <= f.armed || (!open && RecordedBy(c, before, i) >= f.End())
    {
      RecordedGrows(c, before, i + 1);
    }
    GapStays(c, hs, f.armed, if open' then |Recorded(c, hs)| + 1 else f'.End());
  }

  /** A file that is opened or armed by the message. */
  lemma TiedArmed(c: Config, hs: seq<Happening>, f: LogFile)
    requires hs != [] && hs[|hs| - 1].record.level <= c.detectLevel
    requires f.armed == |Recorded(c, hs)|
    requires f.triggered == f.armed || AlertAt(c, hs[..|hs| - 1], f.triggered)
    ensures Tied(c, hs, f, true)
  {
    RecordedByLast(c, hs);
    assert IsAlert(c, hs, |hs| - 1);
    if f.triggered != f.armed {
      AlertStays(c, hs, f.triggered);
    }
    NoAlertAhead(c, hs, f.armed, |Recorded(c, hs)| + 1);
  }

  lemma {:induction false} RunTied(c: Config, hs: seq<Happening>)
    requires c.history >= 1
    ensures AllTied(c, hs, Run(c, hs))
  {
    if hs != [] {
      var n := |hs| - 1;
      RunTied(c, hs[..n]);
      StepTied(c, hs, Run(c, hs[..n]));
    }
  }

  predicate Continues(f: LogFile, f': LogFile) {
    f'.triggered == f.triggered && f'.armed == f.armed
  }

  /** A message extends the file that is written, or closes it. */
  lemma RecordFiles(c: Config, p: Prod, r: LogRecord)
    ensures var p1 := Record(c, p, r);
      || (p1.closed == p.closed && (p1.file.Some? ==> p.file.Some? && Continues(p.file.value, p1.file.value)))
      || (&& p.file.Some? && p1.file.None? && |p1.closed| == |p.closed| + 1 && p1.closed[..|p.closed|] == p.closed
          && Continues(p.file.value, p1.closed[|p.closed|]))
  {
  }

  /** The files once the message has been recorded: when it is an alert, the one that is written may still be closed or armed. */
  lemma RecordTied(c: Config, hs: seq<Happening>, p: Prod)
    requires c.history >= 1 && hs != [] && p == Run(c, hs[..|hs| - 1]) && AllTied(c, hs[..|hs| - 1], p)
    ensures var p1 := Record(c, p, hs[|hs| - 1].record);
      && p1.stream == Recorded(c, hs)
      && (forall k :: 0 <= k < |p1.closed| ==> Tied(c, hs, p1.closed[k], false))
      && (p1.file.Some? ==>
           && AlertAt(c, hs[..|hs| - 1], p1.file.value.triggered)
           && Tied(c, hs, p1.file.value, hs[|hs| - 1].record.level > c.detectLevel))
  {
    var n := |hs| - 1;
    var r := hs[n].record;
    var p1 := Record(c, p, r);
    StreamIsRecorded(c, hs[..n]);
    RecordConsistent(c, p, r);
    RecordFiles(c, p, r);
    forall k | 0 <= k < |p1.closed| ensures Tied(c, hs, p1.closed[k], false) {
      if k < |p.closed| {
        assert p1.closed[k] == p.closed[k];
        TiedStays(c, hs, p.closed[k], p1.closed[k], false, false);
      } else {
        TiedStays(c, hs, p.file.value, p1.closed[k], true, false);
      }
    }
    if p1.file.Some? {
      TiedStays(c, hs, p.file.value, p1.file.value, true, r.level > c.detectLevel);
    }
  }

  lemma StepTied(c: Config, hs: seq<Happening>, p: Prod)
    requires c.history >= 1 && hs != [] && p == Run(c, hs[..|hs| - 1]) && AllTied(c, hs[..|hs| - 1], p)
    ensures AllTied(c, hs, Log(c, p, hs[|hs| - 1].record, hs[|hs| - 1].opens))
  {
    var r := hs[|hs| - 1].record;
    RecordTied(c, hs, p);
    RecordConsistent(c, p, r);
    if r.level <= c.detectLevel {
      AlertTied(c, hs, Record(c, p, r), hs[|hs| - 1].opens);
    }
  }

  lemma AlertTied(c: Config, hs: seq<Happening>, p: Prod, opens: bool)
    requires hs != [] && hs[|hs| - 1].record.level <= c.detectLevel
    requires p.stream == Recorded(c, hs) && |p.history| <= |p.stream|
    requires forall k :: 0 <= k < |p.closed| ==> Tied(c, hs, p.closed[k], false)
    requires p.file.Some? ==> AlertAt(c, hs[..|hs| - 1], p.file.value.triggered) && Tied(c, hs, p.file.value, false)
    ensures AllTied(c, hs, Alert(c, p, opens))
  {
    var p' := Alert(c, p, opens);
    if p'.file.Some? {
      TiedArmed(c, hs, p'.file.value);
    }
  }

  /**
    The windows in terms of the run: a file begins `history` messages before an alert that opened it, and a closed one
    ends `future` messages after an alert, with no later alert before its end.
  */
  lemma WindowsAroundAlerts(c: Config, hs: seq<Happening>, f: LogFile)
    requires c.history >= 1 && f in Files(Run(c, hs))
    ensures Slice(c, Recorded(c, hs), f) && AlertAt(c, hs, f.triggered)
    ensures f in Run(c, hs).closed && c.future > 0 ==>
      exists n: nat :: AlertAt(c, hs, n) && f.End() == n + c.future && NoAlertBetween(c, hs, n, f.End())
  {
    LogWindows(c, hs, f);
    RunTied(c, hs);
    if f in Run(c, hs).closed && c.future > 0 {
      assert AlertAt(c, hs, f.armed) && f.End() == f.armed + c.future && NoAlertBetween(c, hs, f.armed, f.End());
    }
  }

  /** Some file contains the i-th recorded message. */
  predicate Captured(p: Prod, i: nat) {
    exists k :: 0 <= k < |Files(p)| && Files(p)[k].start <= i < Files(p)[k].End()
  }

  predicate AllOpen(hs: seq<Happening>) {
    forall i :: 0 <= i < |hs| ==> hs[i].opens
  }

  /** While messages are still to be written, a file is open. */
  lemma {:induction false} ActiveHasFile(c: Config, hs: seq<Happening>)
    requires c.history >= 1 && AllOpen(hs)
    ensures Run(c, hs).remaining > 0 ==> Run(c, hs).file.Some?
  {
    if hs != [] {
      ActiveHasFile(c, hs[..|hs| - 1]);
    }
  }

  /** No file is lost or cut. */
  predicate Outgrow(fs: seq<LogFile>, fs': seq<LogFile>) {
    |fs| <= |fs'| && forall k :: 0 <= k < |fs| ==> fs'[k].start == fs[k].start && fs[k].End() <= fs'[k].End()
  }

  lemma RecordOutgrows(c: Config, p: Prod, r: LogRecord)
    ensures Outgrow(Files(p), Files(Record(c, p, r)))
  {
  }

  lemma AlertOutgrows(c: Config, p: Prod, opens: bool)
    requires |p.history| <= |p.stream|
    ensures Outgrow(Files(p), Files(Alert(c, p, opens)))
  {
  }

  lemma FilesGrow(c: Config, p: Prod, r: LogRecord, opens: bool)
    requires c.history >= 1 && Consistent(c, p)
    ensures Outgrow(Files(p), Files(Log(c, p, r, opens)))
  {
    RecordConsistent(c, p, r);
    RecordOutgrows(c, p, r);
    AlertOutgrows(c, Record(c, p, r), opens);
  }

  /** After a recorded alert the current file ends with it. */
  lemma AlertHasFile(c: Config, hs: seq<Happening>, i: nat)
    requires c.history >= 1 && AllOpen(hs) && hs != []
    requires hs[|hs| - 1].record.level <= c.level && hs[|hs| - 1].record.level <= c.detectLevel
    requires i + 1 == |Run(c, hs).stream|
    ensures Captured(Run(c, hs), i)
  {
    var p' := Run(c, hs);
    ActiveHasFile(c, hs[..|hs| - 1]);
    RecordConsistent(c, Run(c, hs[..|hs| - 1]), hs[|hs| - 1].record);
    assert p'.file.Some? && p'.file.value.End() == |p'.stream|;
    assert Files(p')[|Files(p')| - 1] == p'.file.value;
  }

  /** If files can be opened, every recorded alert is in some log file. */
  lemma {:induction false} AlertsCaptured(c: Config, hs: seq<Happening>, i: nat)
    requires c.history >= 1 && AllOpen(hs)
    requires i < |Run(c, hs).stream| && Run(c, hs).stream[i].level <= c.detectLevel
    ensures Captured(Run(c, hs), i)
  {
    var n := |hs| - 1;
    var p, p' := Run(c, hs[..n]), Run(c, hs);
    if i < |p.stream| {
      AlertsCaptured(c, hs[..n], i);
      FilesGrow(c, p, hs[n].record, hs[n].opens);
      var k :| 0 <= k < |Files(p)| && Files(p)[k].start <= i < Files(p)[k].End();
      assert Files(p')[k].start <= i < Files(p')[k].End();
    } else {
      AlertHasFile(c, hs, i);
    }
  }

  class Logger {
    const config: Config
    var logHistory: seq<LogRecord>
    var remaining: nat
    var file: Option<LogFile>
    ghost var closed: seq<LogFile>
    var stream: seq<LogRecord>

    ghost function State(): Prod
      reads this
    {
      Prod(stream, logHistory, remaining, file, closed)
    }

    ghost predicate Valid()
      reads this
    {
      config.history >= 1 && Consistent(config, State())
    }

    constructor (config: Config)
      requires config.history >= 1
      ensures this.config == config && State() == IDLE && Valid()
    {
      this.config := config;
      logHistory, remaining, file, closed, stream := [], 0, None, [], [];
    }

    method CloseFile()
      modifies this
      ensures State() == Close(old(State()))
    {
      if file.Some? {
        closed := closed + [file.value];
      }
      file := None;
    }

    /** The first part of `prodLog`. */
    method RecordMessage(r: LogRecord)
      requires config.history >= 1 && |logHistory| <= config.history
      modifies this
      ensures State() == Record(config, old(State()), r)
    {
      if r.level > config.level {
        return;
      }
      stream := stream + [r];
      logHistory := logHistory + [r];
      if |logHistory| > config.history {
        logHistory := logHistory[1..];
      }
      if remaining > 0 {
        if file.Some? {
          file := Some(file.value.(records := file.value.records + [logHistory[|logHistory| - 1]]));
        }
        remaining := remaining - 1;
        if remaining == 0 {
          CloseFile();
        }
      }
    }

    method ProdLog(r: LogRecord, opens: bool)
      requires Valid()
      modifies this
      ensures Valid() && State() == Log(config, old(State()), r, opens)
    {
      LogConsistent(config, State(), r, opens);
      RecordConsistent(config, State(), r);
      RecordMessage(r);
      if r.level <= config.detectLevel {
        RaiseAlert(opens);
      }
    }

    /** The last part of `prodLog`. */
    method RaiseAlert(opens: bool)
      requires |logHistory| <= |stream|
      modifies this
      ensures State() == Alert(config, old(State()), opens)
    {
      if remaining == 0 {
        ProdInit(opens);
      } else if file.Some? {
        file := Some(file.value.(armed := |stream|));
      }
      remaining := config.future;
    }

    method ProdInit(opens: bool)
      requires |logHistory| <= |stream|
      modifies this
      ensures State() == Init(old(State()), opens)
    {
      CloseFile();
      var n := |stream|;
      if opens {
        file := Some(LogFile(logHistory, n - |logHistory|, n, n));
      }
    }
  }
}
