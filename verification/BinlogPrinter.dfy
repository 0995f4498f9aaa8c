/**
 `mysqlbinlog`: the event-driven printer with its transaction, GTID and database
 state.  The printed file is modelled as the list of statements written to it.
 */
module BinlogPrinter {
  import opened Wrappers

  // ----- events -------------------------------------------------------------------

  datatype Gtid = Gtid(sidno: int, gno: int)

  datatype Kind =
    | Query(db: string, query: string)
    | Buffered(value: string)              // Intvar, Rand and User_var events
    | CreateFile(db: string, fileId: nat)
    | BeginLoad(fileId: nat)
    | AppendBlock
    | ExecLoad(fileId: nat)
    | ExecuteLoadQuery(db: string, fileId: nat)
    | FormatDescription(relay: bool, logPos: nat)
    | TableMap(db: string, tableId: nat)
    | Rows(tableId: nat, stmtEnd: bool)
    | GtidEvent(gtid: Gtid, anonymous: bool)
    | PreviousGtids
    | Xid
    | XaPrepare(xid: string)               // printed as XA PREPARE, or as XA COMMIT ... ONE PHASE
    | Rotate
    | Control                              // Stop, Start, Slave, Ignorable and Incident events
    | Unclassified

  datatype Event = Event(kind: Kind, when: nat, serverId: nat, pos: nat)

  function Lower(ch: char): char {
    if 'A' <= ch <= 'Z' then (ch as int + 32) as char else ch
  }

  /** `strncasecmp(text, word, |word|) == 0` */
  predicate CasePrefix(word: string, text: string) {
    word == "" || (text != "" && Lower(text[0]) == Lower(word[0]) && CasePrefix(word[1..], text[1..]))
  }

  predicate IsTransKeyword(query: string) {
    || query <= "BEGIN" || query <= "COMMIT"
    || CasePrefix("SAVEPOINT", query) || CasePrefix("ROLLBACK", query)
    || CasePrefix("XA START", query) || CasePrefix("XA END", query) || CasePrefix("XA PREPARE", query)
    || CasePrefix("XA COMMIT", query) || CasePrefix("XA ROLLBACK", query)
  }

  predicate StartsGroup(query: string) {
    query <= "BEGIN" || "XA START" <= query
  }

  predicate EndsGroup(query: string) {
    || query <= "COMMIT"
    || (CasePrefix("ROLLBACK", query) && !CasePrefix("ROLLBACK TO ", query))
    || "XA ROLLBACK" <= query
  }

  // ----- options ------------------------------------------------------------------

  datatype Options = Options(
    database: Option<string>,
    included: Option<set<Gtid>>,
    excluded: Option<set<Gtid>>,
    skipGtids: bool,
    serverId: nat,
    stopDatetime: nat)

  /** `shall_skip_database`, for an event that names a database */
  predicate OtherDatabase(o: Options, db: string) {
    o.database.Some? && o.database.value != db
  }

  /** The verdict of --include-gtids and --exclude-gtids. */
  predicate Unwanted(o: Options, g: Gtid) {
    (o.included.Some? && g !in o.included.value) || (o.excluded.Some? && g in o.excluded.value)
  }

  /** Whether any GTID event gets through at all. */
  ghost predicate GtidsPass(o: Options) {
    !o.skipGtids && exists g: Gtid :: !Unwanted(o, g)
  }

  // ----- output -------------------------------------------------------------------

  datatype Item = Printed(kind: Kind) | AddedCommit | AddedBegin | AddedRollback | SetAutomatic

  /** `loads` holds the ids with a live temporary file; true for one that a Create_file event began. */
  datatype State = State(
    inTransaction: bool,
    seenGtid: bool,
    filtering: bool,
    skipped: bool,
    isFirstFd: bool,
    buffered: seq<string>,
    ignored: set<nat>,
    loads: map<nat, bool>,
    recCount: nat,
    offset: nat,
    startDatetime: nat,
    stopped: bool,
    output: seq<Item>)

  // ----- the GTID filter ------------------------------------------------------------

  predicate ClosesGroup(k: Kind) {
    k.Xid? || (k.Query? && EndsGroup(k.query))
  }

  predicate IsControl(k: Kind) {
    k.FormatDescription? || k.Rotate? || k.Control?
  }

  /** `shall_skip_gtids`: whether the event is left out, and the new filter flag. */
  function ShallSkip(o: Options, filtering: bool, k: Kind): (bool, bool) {
    if k.GtidEvent? then (Unwanted(o, k.gtid) || o.skipGtids, Unwanted(o, k.gtid))
    else if k.PreviousGtids? then (o.skipGtids, filtering)
    else if IsControl(k) then (false, filtering)
    else (filtering, filtering && !ClosesGroup(k))
  }

  // ----- one event ------------------------------------------------------------------

  /** The filter and the place in the input are left alone. */
  predicate Unmoved(s: State, r: State) {
    && r.filtering == s.filtering && r.recCount == s.recCount && r.stopped == s.stopped
    && r.offset == s.offset && r.startDatetime == s.startDatetime
  }

  function Print(s: State, k: Kind): State {
    s.(output := s.output + [Printed(k)])
  }

  function Closing(o: Options, s: State): seq<Item> {
    if s.inTransaction then [AddedRollback]
    else if s.seenGtid && !o.skipGtids then [AddedBegin, AddedRollback]
    else []
  }

  function EndBinlog(o: Options, s: State): State {
    s.(output := s.output + (Closing(o, s) + if o.skipGtids then [] else [SetAutomatic]),
       seenGtid := false, inTransaction := false)
  }

  function AsPrinted(values: seq<string>): seq<Item> {
    if values == [] then [] else [Printed(Buffered(values[0]))] + AsPrinted(values[1..])
  }

  /** A statement outside a group, in a GTID of its own, that --database leaves out. */
  predicate CommitsSkipped(s: State, starts: bool, ends: bool) {
    s.seenGtid && !s.inTransaction && !starts && !ends
  }

  /** The buffered events are printed with the statement they belong to. */
  function ReleaseBuffered(s: State, skips: bool): State {
    s.(buffered := [], output := s.output + if skips then [] else AsPrinted(s.buffered))
  }

  function QueryFlags(s: State, starts: bool, ends: bool): State {
    if ends then s.(inTransaction := false, skipped := false, seenGtid := false)
    else if starts then s.(inTransaction := true)
    else s.(seenGtid := s.seenGtid && s.inTransaction)
  }

  function QueryStep(s: State, k: Kind, skips: bool, starts: bool, ends: bool): (r: State)
    ensures Unmoved(s, r)
  {
    var t := ReleaseBuffered(s, skips);
    if !skips then Print(QueryFlags(t, starts, ends), k)
    else if CommitsSkipped(t, starts, ends) then
      t.(output := t.output + [AddedCommit], skipped := false, seenGtid := false)
    else t.(skipped := true)
  }

  function ProcessQuery(o: Options, s: State, k: Kind): (r: State)
    requires k.Query?
    ensures Unmoved(s, r)
  {
    QueryStep(s, k, !IsTransKeyword(k.query) && OtherDatabase(o, k.db), StartsGroup(k.query), EndsGroup(k.query))
  }

  function ProcessFormat(o: Options, s: State, k: Kind): (r: State)
    requires k.FormatDescription?
    ensures Unmoved(s, r)
  {
    if k.relay then Print(s, k)
    else
      var t := if k.logPos > 0 && !s.isFirstFd then EndBinlog(o, s) else s;
      Print(t.(isFirstFd := false), k)
  }

  function ProcessRows(s: State, k: Kind): (r: State)
    requires k.Rows?
    ensures Unmoved(s, r)
  {
    var t := if k.stmtEnd then s.(ignored := {}) else s;
    if k.tableId in s.ignored then t.(skipped := true) else Print(t, k)
  }

  function ProcessGtid(s: State, k: Kind): (r: State)
    ensures Unmoved(s, r)
  {
    Print(s.(seenGtid := true, skipped := false,
             output := s.output + if s.skipped then [AddedCommit] else []), k)
  }

  predicate Holds(s: State, id: nat, create: bool) {
    id in s.loads && s.loads[id] == create
  }

  function Release(s: State, id: nat): State {
    s.(loads := s.loads - {id})
  }

  /** Without a live file nothing is printed; the file is given up also when the database is another one. */
  function ProcessLoadQuery(o: Options, s: State, k: Kind): (r: State)
    requires k.ExecuteLoadQuery?
    ensures Unmoved(s, r)
  {
    var t := if Holds(s, k.fileId, false) then Release(s, k.fileId) else s;
    if OtherDatabase(o, k.db) then t.(skipped := true)
    else if Holds(s, k.fileId, false) then Print(t, k)
    else t
  }

  predicate IsLoad(k: Kind) {
    k.CreateFile? || k.BeginLoad? || k.ExecLoad? || k.ExecuteLoadQuery?
  }

  /** The events of LOAD DATA statements. */
  function ProcessLoad(o: Options, s: State, k: Kind): (r: State)
    requires IsLoad(k)
    ensures Unmoved(s, r)
  {
    match k
    case CreateFile(db, id) =>
      if OtherDatabase(o, db) then s.(skipped := true) else Print(s.(loads := s.loads[id := true]), k)
    case BeginLoad(id) => Print(s.(loads := s.loads[id := false]), k)
    case ExecLoad(id) => if Holds(s, id, true) then Print(Release(s, id), k) else s
    case ExecuteLoadQuery(db, id) => ProcessLoadQuery(o, s, k)
  }

  function ProcessMap(o: Options, s: State, k: Kind): (r: State)
    requires k.TableMap?
    ensures Unmoved(s, r)
  {
    if OtherDatabase(o, k.db) then s.(skipped := true, ignored := s.ignored + {k.tableId}) else Print(s, k)
  }

  /** The events that leave the flags of transaction and GTID alone. */
  function ProcessQuiet(o: Options, s: State, k: Kind): (r: State)
    ensures Unmoved(s, r)
  {
    if k.Buffered? then s.(buffered := s.buffered + [k.value])
    else if k.TableMap? then ProcessMap(o, s, k)
    else if k.Rows? then ProcessRows(s, k)
    else if IsLoad(k) then ProcessLoad(o, s, k)
    else Print(s, k)
  }

  /** The switch of `process_event`. */
  function ProcessKind(o: Options, s: State, k: Kind): (r: State)
    ensures Unmoved(s, r)
  {
    if k.Query? then ProcessQuery(o, s, k)
    else if k.FormatDescription? then ProcessFormat(o, s, k)
    else if k.GtidEvent? then ProcessGtid(s, k)
    else if k.Xid? then Print(s.(inTransaction := false, skipped := false, seenGtid := false), k)
    else ProcessQuiet(o, s, k)
  }

  /** Whether the event comes before --offset or --start-datetime. */
  predicate TooEarly(s: State, ev: Event) {
    !ev.kind.FormatDescription? && (s.recCount < s.offset || ev.when < s.startDatetime)
  }

  predicate OtherServer(o: Options, ev: Event) {
    !ev.kind.FormatDescription? && !ev.kind.Rotate? && o.serverId != 0 && o.serverId != ev.serverId
  }

  predicate TooLate(o: Options, ev: Event, stopPosition: Option<nat>) {
    ev.when >= o.stopDatetime || (stopPosition.Some? && ev.pos >= stopPosition.value)
  }

  /** The first wanted event switches --offset and --start-datetime off. */
  function Counted(s: State, ev: Event): (c: State)
    ensures c == s.(recCount := s.recCount + 1, offset := c.offset, startDatetime := c.startDatetime)
    ensures TooEarly(s, ev) || ev.kind.FormatDescription? ==> c.offset == s.offset && c.startDatetime == s.startDatetime
    ensures !TooEarly(s, ev) && !ev.kind.FormatDescription? ==> c.offset == 0 && c.startDatetime == 0
  {
    if TooEarly(s, ev) || ev.kind.FormatDescription? then s.(recCount := s.recCount + 1)
    else s.(recCount := s.recCount + 1, startDatetime := 0, offset := 0)
  }

  /** An event that reached the GTID filter. */
  function FilterAndProcess(o: Options, s: State, k: Kind): (r: State)
    ensures Unmoved(s.(filtering := ShallSkip(o, s.filtering, k).1), r)
  {
    var (skip, filtering) := ShallSkip(o, s.filtering, k);
    if skip then s.(filtering := filtering) else ProcessKind(o, s.(filtering := filtering), k)
  }

  /** `process_event` */
  function ProcessEvent(o: Options, s: State, ev: Event, stopPosition: Option<nat>): (r: State)
    ensures r.filtering == if TooEarly(s, ev) || OtherServer(o, ev) || TooLate(o, ev, stopPosition) then s.filtering
                           else ShallSkip(o, s.filtering, ev.kind).1
  {
    if TooEarly(s, ev) || OtherServer(o, ev) then Counted(s, ev)
    else if TooLate(o, ev, stopPosition) then Counted(s, ev).(stopped := true)
    else FilterAndProcess(o, Counted(s, ev), ev.kind)
  }

  // ----- whole runs -----------------------------------------------------------------

  function ProcessLog(o: Options, s: State, log: seq<Event>, stopPosition: Option<nat>): State
    decreases |log|
  {
    if log == [] || s.stopped then s
    else ProcessLog(o, ProcessEvent(o, s, log[0], stopPosition), log[1..], stopPosition)
  }

  /** The loop of `dump_multiple_logs`: --stop-position applies to the last log only. */
  function ProcessLogs(o: Options, s: State, logs: seq<seq<Event>>, stopPosition: Option<nat>): State
    decreases |logs|
  {
    if logs == [] || s.stopped then s
    else ProcessLogs(o, ProcessLog(o, s, logs[0], if |logs| == 1 then stopPosition else None), logs[1..], stopPosition)
  }

  function Initial(offset: nat, startDatetime: nat): State {
    State(false, false, false, false, true, [], {}, map[], 0, offset, startDatetime, false, [])
  }

  /** The tail of `dump_multiple_logs`. */
  function Finish(o: Options, s: State): State {
    EndBinlog(o, if s.skipped then s.(output := s.output + [AddedCommit]) else s)
  }

  /** A whole run of the program. */
  function Dump(o: Options, offset: nat, startDatetime: nat, logs: seq<seq<Event>>, stopPosition: Option<nat>): State {
    Finish(o, ProcessLogs(o, Initial(offset, startDatetime), logs, stopPosition))
  }
}
