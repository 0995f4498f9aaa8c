/**
 Which events are reached at all, and the filter of --include-gtids and --exclude-gtids,
 which decides transaction by transaction, also for transactions that span several files.
 */
module BinlogFilter {
  import opened Wrappers
  import opened BinlogPrinter
  import opened BinlogHistory

  // ----- the events of all files ------------------------------------------------------------------------

  /** An event as it is read, with the stop position that applies to its file. */
  datatype Read = Read(ev: Event, stop: Option<nat>)

  function OneFile(log: seq<Event>, stop: Option<nat>): seq<Read> {
    seq(|log|, i requires 0 <= i < |log| => Read(log[i], stop))
  }

  /** --stop-position applies to the last file. */
  function AllRead(logs: seq<seq<Event>>, stop: Option<nat>): seq<Read> {
    if logs == [] then [] else OneFile(logs[0], if |logs| == 1 then stop else None) + AllRead(logs[1..], stop)
  }

  function RunReads(o: Options, s: State, input: seq<Read>): State
    decreases |input|
  {
    if input == [] || s.stopped then s else RunReads(o, ProcessEvent(o, s, input[0].ev, input[0].stop), input[1..])
  }

  lemma {:induction false} ReadsAppend(o: Options, s: State, a: seq<Read>, b: seq<Read>)
    ensures RunReads(o, s, a + b) == RunReads(o, RunReads(o, s, a), b)
    decreases |a|
  {
    hide ProcessEvent;
    if a == [] {
      assert a + b == b;
    } else if !s.stopped {
      assert (a + b)[0] == a[0] && (a + b)[1..] == a[1..] + b;
      ReadsAppend(o, ProcessEvent(o, s, a[0].ev, a[0].stop), a[1..], b);
    }
  }

  lemma {:induction false} LogIsRead(o: Options, s: State, log: seq<Event>, stop: Option<nat>)
    ensures ProcessLog(o, s, log, stop) == RunReads(o, s, OneFile(log, stop))
    decreases |log|
  {
    hide ProcessEvent;
    if log != [] && !s.stopped {
      assert OneFile(log, stop)[1..] == OneFile(log[1..], stop);
      LogIsRead(o, ProcessEvent(o, s, log[0], stop), log[1..], stop);
    }
  }

  /** The loop over the files is one over all their events. */
  lemma {:induction false} LogsAreRead(o: Options, s: State, logs: seq<seq<Event>>, stop: Option<nat>)
    ensures ProcessLogs(o, s, logs, stop) == RunReads(o, s, AllRead(logs, stop))
    decreases |logs|
  {
    hide ProcessLog, OneFile;
    if logs != [] {
      var at := if |logs| == 1 then stop else None;
      LogIsRead(o, s, logs[0], at);
      ReadsAppend(o, s, OneFile(logs[0], at), AllRead(logs[1..], stop));
      LogsAreRead(o, ProcessLog(o, s, logs[0], at), logs[1..], stop);
      if s.stopped { Stopped(o, s, AllRead(logs, stop)); }
    }
  }

  lemma Stopped(o: Options, s: State, input: seq<Read>)
    requires s.stopped
    ensures RunReads(o, s, input) == s
  {
  }

  lemma NextRead(o: Options, s: State, input: seq<Read>, r: Read)
    ensures var t := RunReads(o, s, input);
            RunReads(o, s, input + [r]) == if t.stopped then t else ProcessEvent(o, t, r.ev, r.stop)
  {
    hide ProcessEvent;
    ReadsAppend(o, s, input, [r]);
    assert [r][1..] == [];
  }

  // ----- which of them are reached -------------------------------------------------------------------------

  /** From this event on --offset and --start-datetime no longer hold anything back. */
  predicate Opening(offset: nat, start: nat, input: seq<Read>, i: nat)
    requires i < |input|
  {
    !input[i].ev.kind.FormatDescription? && offset <= i && start <= input[i].ev.when
  }

  /** Held back by --offset or --start-datetime, or from another server than that of --server-id. */
  predicate Unwished(o: Options, offset: nat, start: nat, input: seq<Read>, i: nat)
    requires i < |input|
  {
    var ev := input[i].ev;
    && !ev.kind.FormatDescription?
    && ((forall j | 0 <= j <= i :: !Opening(offset, start, input, j)) || (!ev.kind.Rotate? && o.serverId !in {0, ev.serverId}))
  }

  /** At or behind --stop-datetime or --stop-position. */
  predicate Late(o: Options, r: Read) {
    o.stopDatetime <= r.ev.when || (r.stop.Some? && r.stop.value <= r.ev.pos)
  }

  /** The first such event that is not passed over ends the run. */
  predicate Halting(o: Options, offset: nat, start: nat, input: seq<Read>, i: nat)
    requires i < |input|
  {
    !Unwished(o, offset, start, input, i) && Late(o, input[i])
  }

  predicate Arrives(o: Options, offset: nat, start: nat, input: seq<Read>, i: nat)
    requires i < |input|
  {
    !Unwished(o, offset, start, input, i) && forall j | 0 <= j <= i :: !Halting(o, offset, start, input, j)
  }

  /** The events among the first `n` that get as far as the filter. */
  function Reached(o: Options, offset: nat, start: nat, input: seq<Read>, n: nat): seq<Kind>
    requires n <= |input|
  {
    if n == 0 then []
    else Reached(o, offset, start, input, n - 1) + if Arrives(o, offset, start, input, n - 1) then [input[n - 1].ev.kind] else []
  }

  /** The place in the input, as the program keeps it. */
  predicate Placed(o: Options, offset: nat, start: nat, input: seq<Read>, n: nat, s: State)
    requires n <= |input|
  {
    && (s.stopped <==> exists i | 0 <= i < n :: Halting(o, offset, start, input, i))
    && (!s.stopped ==>
          && s.recCount == n
          && (if exists i | 0 <= i < n :: Opening(offset, start, input, i) then s.offset == 0 && s.startDatetime == 0
              else s.offset == offset && s.startDatetime == start))
  }

  lemma EarlyIff(o: Options, offset: nat, start: nat, input: seq<Read>, n: nat, s: State)
    requires n < |input| && Placed(o, offset, start, input, n, s) && !s.stopped && !input[n].ev.kind.FormatDescription?
    ensures TooEarly(s, input[n].ev) <==> forall j | 0 <= j <= n :: !Opening(offset, start, input, j)
  {
    hide Halting;
    if exists i | 0 <= i < n :: Opening(offset, start, input, i) {
      var i :| 0 <= i < n && Opening(offset, start, input, i);
      assert Opening(offset, start, input, i);
    } else {
      assert TooEarly(s, input[n].ev) <==> !Opening(offset, start, input, n);
      forall j | 0 <= j < n ensures !Opening(offset, start, input, j) {}
    }
  }

  /** What the program makes of the position, time and server of an event. */
  lemma Decision(o: Options, offset: nat, start: nat, input: seq<Read>, n: nat, s: State)
    requires n < |input| && Placed(o, offset, start, input, n, s) && !s.stopped
    ensures var r := input[n];
            && (TooEarly(s, r.ev) || OtherServer(o, r.ev) <==> Unwished(o, offset, start, input, n))
            && (TooLate(o, r.ev, r.stop) <==> Late(o, r))
  {
    hide Halting, Placed, Opening;
    if !input[n].ev.kind.FormatDescription? { EarlyIff(o, offset, start, input, n, s); }
  }

  lemma ArrivesIff(o: Options, offset: nat, start: nat, input: seq<Read>, n: nat, s: State)
    requires n < |input| && Placed(o, offset, start, input, n, s) && !s.stopped
    ensures var r := input[n];
            Arrives(o, offset, start, input, n) <==> !TooEarly(s, r.ev) && !OtherServer(o, r.ev) && !TooLate(o, r.ev, r.stop)
  {
    hide Unwished, Late, TooEarly, OtherServer, TooLate, Opening;
    Decision(o, offset, start, input, n, s);
    assert Halting(o, offset, start, input, n) <==> !Unwished(o, offset, start, input, n) && Late(o, input[n]);
    forall j | 0 <= j < n ensures !Halting(o, offset, start, input, j) {}
  }

  /** Processing an event changes the place by counting it only. */
  lemma CountedPlace(o: Options, s: State, ev: Event, stop: Option<nat>)
    ensures var t := ProcessEvent(o, s, ev, stop);
            && t.recCount == s.recCount + 1
            && (t.stopped <==> s.stopped || (!TooEarly(s, ev) && !OtherServer(o, ev) && TooLate(o, ev, stop)))
            && (if TooEarly(s, ev) || ev.kind.FormatDescription? then t.offset == s.offset && t.startDatetime == s.startDatetime
                else t.offset == 0 && t.startDatetime == 0)
  {
    hide FilterAndProcess, ShallSkip, Counted, TooEarly, OtherServer, TooLate;
    var c := Counted(s, ev);
    assert Unmoved(c.(filtering := ShallSkip(o, c.filtering, ev.kind).1), FilterAndProcess(o, c, ev.kind));
  }

  lemma NextPlaced(o: Options, offset: nat, start: nat, input: seq<Read>, n: nat, s: State)
    requires n < |input| && Placed(o, offset, start, input, n, s) && !s.stopped
    ensures Placed(o, offset, start, input, n + 1, ProcessEvent(o, s, input[n].ev, input[n].stop))
  {
    hide ProcessEvent, Unwished, Late, TooEarly, OtherServer, TooLate, Opening;
    var ev, stop := input[n].ev, input[n].stop;
    Decision(o, offset, start, input, n, s);
    CountedPlace(o, s, ev, stop);
    OpeningNext(o, offset, start, input, n, s);
    assert Halting(o, offset, start, input, n) <==> !Unwished(o, offset, start, input, n) && Late(o, input[n]);
  }

  lemma OpeningNext(o: Options, offset: nat, start: nat, input: seq<Read>, n: nat, s: State)
    requires n < |input| && Placed(o, offset, start, input, n, s) && !s.stopped
    ensures (exists i | 0 <= i < n + 1 :: Opening(offset, start, input, i)) <==>
            (exists i | 0 <= i < n :: Opening(offset, start, input, i)) || !(TooEarly(s, input[n].ev) || input[n].ev.kind.FormatDescription?)
  {
    hide Halting;
    if !input[n].ev.kind.FormatDescription? {
      EarlyIff(o, offset, start, input, n, s);
    } else {
      assert !Opening(offset, start, input, n);
    }
  }

  // ----- the filter -------------------------------------------------------------------------------------------

  lemma RejectedNext(o: Options, past: seq<Kind>, k: Kind)
    ensures Rejected(o, past + [k]) <==>
            if k.GtidEvent? then !Chosen(o, k.gtid) else Rejected(o, past) && !ClosesGroup(k)
  {
    hide Since;
    SinceNext(past, k, NotChosen(o), Settles());
  }

  /** The decision of the filter and its new flag. */
  lemma FilterNext(o: Options, past: seq<Kind>, k: Kind)
    ensures ShallSkip(o, Rejected(o, past), k) == (!Passes(o, past, k), Rejected(o, past + [k]))
  {
    hide Rejected;
    RejectedNext(o, past, k);
  }

  /** Events whose own kind does not decide about them. */
  predicate Ordinary(k: Kind) {
    !k.GtidEvent? && !k.PreviousGtids? && !IsControl(k)
  }

  lemma {:induction false} RejectedInside(o: Options, all: seq<Kind>, i: nat, j: nat)
    requires i < j <= |all| && all[i].GtidEvent? && forall m | i < m < j :: !all[m].GtidEvent? && !ClosesGroup(all[m])
    ensures Rejected(o, all[..j]) <==> !Chosen(o, all[i].gtid)
    decreases j
  {
    hide Rejected;
    assert all[..j] == all[..j - 1] + [all[j - 1]];
    RejectedNext(o, all[..j - 1], all[j - 1]);
    if i < j - 1 { RejectedInside(o, all, i, j - 1); }
  }

  /**
   A transaction passes or is dropped as a whole: every ordinary event up to and
   including the one that closes the group gets the verdict on its GTID, also in
   later files and with rotate and format events in between, and control events
   always pass.
   */
  lemma TransactionAsAWhole(o: Options, reached: seq<Kind>, i: nat, j: nat)
    requires i < j < |reached| && reached[i].GtidEvent?
    requires forall m | i < m < j :: !reached[m].GtidEvent? && !ClosesGroup(reached[m])
    ensures Ordinary(reached[j]) ==> (Passes(o, reached[..j], reached[j]) <==> Chosen(o, reached[i].gtid))
    ensures IsControl(reached[j]) ==> Passes(o, reached[..j], reached[j])
  {
    hide Rejected;
    RejectedInside(o, reached, i, j);
  }
}
