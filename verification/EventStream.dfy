/**
  The acceptor for the event stream of the canary run. The loop over lines and events is
  proved against a grammar that says what an acceptable stream looks like, and its answer
  is the report of the one command in it.

  A character of a string stands for one byte of UTF-8. Decoding a line of JSON is a
  parameter; the decoded objects keep their fields in order, repetitions included.
*/
module EventStream {
  import opened Common

  datatype JsonValue =
    | Null | Bool(b: bool) | Int(n: int) | Float | Str(s: string)
    | Arr(items: seq<JsonValue>) | Obj(fields: seq<(string, JsonValue)>)

  const CODEX_EXEC_CANARY_JSONL_MAX_BYTES: nat := 256 * 1024
  const CODEX_EXEC_CANARY_JSONL_LINE_MAX_BYTES: nat := 64 * 1024
  const RUNTIME_CANARY_REPORT_MAX_BYTES: nat := 16 * 1024
  const RUNTIME_CANARY_SCHEMA_VERSION: nat := 1
  const RUNTIME_CANARY_SUITE: string := "runtime-boundary-v1"

  const RUNTIME_CANARY_CHECKS: seq<string> := [
    "bot_socket_denied", "capability_sets_empty", "config_worker_socket_denied", "credential_path_denied",
    "final_output_denied", "forbidden_network_denied", "host_protected_path_denied", "host_unix_socket_denied",
    "launcher_socket_denied", "main_home_denied", "main_process_inspection_denied", "no_new_privileges",
    "privilege_escalation_denied", "sensitive_descriptors_denied", "setid_and_file_capabilities_absent",
    "tool_home_writable", "workspace_read_only"]

  // ----- no key twice, at any depth -----

  ghost predicate DistinctKeys(fields: seq<(string, JsonValue)>) {
    forall i, j | 0 <= i < j < |fields| :: fields[i].0 != fields[j].0
  }

  ghost predicate NoDuplicates(j: JsonValue)
    decreases j
  {
    match j
    case Obj(fields) => DistinctKeys(fields) && forall i | 0 <= i < |fields| :: NoDuplicates(fields[i].1)
    case Arr(items) => forall i | 0 <= i < |items| :: NoDuplicates(items[i])
    case _ => true
  }

  method RejectDuplicates(j: JsonValue) returns (ok: bool)
    ensures ok <==> NoDuplicates(j)
    decreases j
  {
    match j
    case Arr(items) =>
      for i := 0 to |items|
        invariant forall k | 0 <= k < i :: NoDuplicates(items[k])
      {
        var clean := RejectDuplicates(items[i]);
        if !clean { return false; }
      }
      ok := true;
    case Obj(fields) =>
      var keys: set<string> := {};
      for i := 0 to |fields|
        invariant forall key :: key in keys <==> exists k | 0 <= k < i :: fields[k].0 == key
        invariant DistinctKeys(fields[..i])
        invariant forall k | 0 <= k < i :: NoDuplicates(fields[k].1)
      {
        if fields[i].0 in keys { return false; }
        keys := keys + {fields[i].0};
        var clean := RejectDuplicates(fields[i].1);
        if !clean { return false; }
      }
      assert fields[..|fields|] == fields;
      ok := true;
    case _ => ok := true;
  }

  // ----- one line -----

  datatype Event =
    | ThreadStarted(id: string) | TurnStarted
    | CommandStarted(id: string, command: string, status: string)
    | CommandCompleted(id: string, command: string, output: string, exitCode: int, status: string)
    | Reasoning(id: string, text: string) | AgentMessage(id: string, text: string)
    | TurnCompleted(usage: map<string, JsonValue>)

  /** The decoded object: a later field replaces an earlier one of the same name. */
  function Fields(fields: seq<(string, JsonValue)>): map<string, JsonValue> {
    if fields == [] then map[]
    else Fields(fields[..|fields| - 1])[fields[|fields| - 1].0 := fields[|fields| - 1].1]
  }

  function Lookup(j: JsonValue, name: string): Option<JsonValue> {
    if j.Obj? && name in Fields(j.fields) then Some(Fields(j.fields)[name]) else None
  }

  function StringAt(j: JsonValue, name: string): Option<string> {
    var v := Lookup(j, name);
    if v.Some? && v.value.Str? then Some(v.value.s) else None
  }

  predicate OnlyFields(j: JsonValue, names: set<string>) {
    j.Obj? && forall name | name in Fields(j.fields) :: name in names
  }

  /** As the program reads a line: the type decides the shape, unknown fields are refused. */
  function Decode(j: JsonValue): Option<Event> {
    var kind := StringAt(j, "type");
    if kind == None then None
    else if kind.value == "thread.started" then DecodeThread(j)
    else if kind.value == "turn.started" then (if OnlyFields(j, {"type"}) then Some(TurnStarted) else None)
    else if kind.value == "turn.completed" then DecodeTurnEnd(j)
    else if kind.value == "item.started" || kind.value == "item.completed" then DecodeItem(j, kind.value == "item.started")
    else None
  }

  function DecodeThread(j: JsonValue): Option<Event> {
    var id := StringAt(j, "thread_id");
    if OnlyFields(j, {"type", "thread_id"}) && id.Some? then Some(ThreadStarted(id.value)) else None
  }

  function DecodeTurnEnd(j: JsonValue): Option<Event> {
    var usage := Lookup(j, "usage");
    if OnlyFields(j, {"type", "usage"}) && usage.Some? && usage.value.Obj? then Some(TurnCompleted(Fields(usage.value.fields)))
    else None
  }

  function DecodeItem(j: JsonValue, started: bool): Option<Event> {
    var item := Lookup(j, "item");
    if item == None || !OnlyFields(j, {"type", "item"}) then None
    else
      var kind, id := StringAt(item.value, "type"), StringAt(item.value, "id");
      if kind == None || id == None then None
      else if started then
        if kind.value == "command_execution" then DecodeCommandStart(item.value, id.value) else None
      else if kind.value == "command_execution" then DecodeCommandEnd(item.value, id.value)
      else if kind.value == "reasoning" || kind.value == "agent_message" then
        DecodeText(item.value, id.value, kind.value == "reasoning")
      else None
  }

  function DecodeCommandStart(item: JsonValue, id: string): Option<Event> {
    var command, status := StringAt(item, "command"), StringAt(item, "status");
    if OnlyFields(item, {"id", "type", "command", "status"}) && command.Some? && status.Some?
    then Some(CommandStarted(id, command.value, status.value))
    else None
  }

  function DecodeCommandEnd(item: JsonValue, id: string): Option<Event> {
    var command, status := StringAt(item, "command"), StringAt(item, "status");
    var output, exit := StringAt(item, "aggregated_output"), Lookup(item, "exit_code");
    if && OnlyFields(item, {"id", "type", "command", "aggregated_output", "exit_code", "status"})
       && command.Some? && status.Some? && output.Some? && exit.Some? && exit.value.Int?
       && -0x8000_0000 <= exit.value.n < 0x8000_0000
    then Some(CommandCompleted(id, command.value, output.value, exit.value.n, status.value))
    else None
  }

  function DecodeText(item: JsonValue, id: string, reasoning: bool): Option<Event> {
    var text := StringAt(item, "text");
    if !OnlyFields(item, {"id", "type", "text"}) || text == None then None
    else Some(if reasoning then Reasoning(id, text.value) else AgentMessage(id, text.value))
  }

  /** The fields of an event's object, exactly; items give the fields of the inner object too. */
  ghost predicate Reads(j: JsonValue, e: Event) {
    j.Obj? &&
    match e
    case ThreadStarted(id) => Fields(j.fields) == map["type" := Str("thread.started"), "thread_id" := Str(id)]
    case TurnStarted => Fields(j.fields) == map["type" := Str("turn.started")]
    case TurnCompleted(usage) =>
      && Fields(j.fields).Keys == {"type", "usage"} && Fields(j.fields)["type"] == Str("turn.completed")
      && Fields(j.fields)["usage"].Obj? && Fields(Fields(j.fields)["usage"].fields) == usage
    case CommandStarted(id, command, status) =>
      ReadsItem(j, "item.started",
                map["id" := Str(id), "type" := Str("command_execution"), "command" := Str(command), "status" := Str(status)])
    case CommandCompleted(id, command, output, exit, status) =>
      && -0x8000_0000 <= exit < 0x8000_0000
      && ReadsItem(j, "item.completed",
                   map["id" := Str(id), "type" := Str("command_execution"), "command" := Str(command),
                       "aggregated_output" := Str(output), "exit_code" := Int(exit), "status" := Str(status)])
    case Reasoning(id, text) =>
      ReadsItem(j, "item.completed", map["id" := Str(id), "type" := Str("reasoning"), "text" := Str(text)])
    case AgentMessage(id, text) =>
      ReadsItem(j, "item.completed", map["id" := Str(id), "type" := Str("agent_message"), "text" := Str(text)])
  }

  ghost predicate ReadsItem(j: JsonValue, kind: string, inner: map<string, JsonValue>) {
    && j.Obj? && Fields(j.fields).Keys == {"type", "item"} && Fields(j.fields)["type"] == Str(kind)
    && Fields(j.fields)["item"].Obj? && Fields(Fields(j.fields)["item"].fields) == inner
  }

  lemma CommandStartExactly(item: JsonValue, e: Event)
    requires StringAt(item, "type") == Some("command_execution")
    ensures (exists id :: StringAt(item, "id") == Some(id) && DecodeCommandStart(item, id) == Some(e))
            <==> e.CommandStarted? && item.Obj? &&
                 Fields(item.fields) == map["id" := Str(e.id), "type" := Str("command_execution"), "command" := Str(e.command), "status" := Str(e.status)]
  {
  }

  lemma CommandEndExactly(item: JsonValue, e: Event)
    requires StringAt(item, "type") == Some("command_execution")
    ensures (exists id :: StringAt(item, "id") == Some(id) && DecodeCommandEnd(item, id) == Some(e))
            <==> e.CommandCompleted? && item.Obj? && -0x8000_0000 <= e.exitCode < 0x8000_0000 &&
                 Fields(item.fields) == map["id" := Str(e.id), "type" := Str("command_execution"), "command" := Str(e.command),
                                            "aggregated_output" := Str(e.output), "exit_code" := Int(e.exitCode), "status" := Str(e.status)]
  {
  }

  lemma TextExactly(item: JsonValue, e: Event, reasoning: bool)
    requires StringAt(item, "type") == Some(if reasoning then "reasoning" else "agent_message")
    ensures (exists id :: StringAt(item, "id") == Some(id) && DecodeText(item, id, reasoning) == Some(e))
            <==> (if reasoning then e.Reasoning? else e.AgentMessage?) && item.Obj? &&
                 Fields(item.fields) == map["id" := Str(e.id), "type" := Str(if reasoning then "reasoning" else "agent_message"), "text" := Str(e.text)]
  {
  }

  lemma ItemExactly(j: JsonValue, e: Event, started: bool)
    requires StringAt(j, "type") == Some(if started then "item.started" else "item.completed")
    ensures DecodeItem(j, started) == Some(e)
            <==> Reads(j, e) && (e.CommandStarted? || e.CommandCompleted? || e.Reasoning? || e.AgentMessage?)
  {
    hide Fields;
    var item := Lookup(j, "item");
    if item.Some? {
      var kind := StringAt(item.value, "type");
      if kind == Some("command_execution") {
        hide DecodeCommandStart, DecodeCommandEnd;
        CommandStartExactly(item.value, e);
        CommandEndExactly(item.value, e);
      } else if kind == Some("reasoning") || kind == Some("agent_message") {
        hide DecodeText;
        TextExactly(item.value, e, kind == Some("reasoning"));
      }
    }
  }

  /** The program reads a line as an event exactly when the line is that event's object. */
  lemma DecodeExactly(j: JsonValue, e: Event)
    ensures Decode(j) == Some(e) <==> Reads(j, e)
  {
    hide DecodeItem, Fields;
    if StringAt(j, "type") == Some("item.started") { ItemExactly(j, e, true); }
    if StringAt(j, "type") == Some("item.completed") { ItemExactly(j, e, false); }
  }

  // ----- the report -----

  /** A decoded report; its checks in the order they were written. */
  datatype RawReport = RawReport(schemaVersion: nat, suite: string, nonce: string, binding: string,
                                 checks: seq<(string, bool)>, finalLine: string)

  datatype Report = Report(nonce: string, binding: string, checks: map<string, bool>)

  /** What the stream is checked against; `decodeReport` decodes a report line. */
  datatype Context = Context(nonce: string, binding: string, command: string, finalLine: string,
                             decodeReport: string -> Option<RawReport>)

  /** The map visitor of the checks: an entry that replaces another one is an error. */
  method CollectChecks(entries: seq<(string, bool)>) returns (r: Option<map<string, bool>>)
    ensures r == ChecksOf(entries)
  {
    var checks: map<string, bool> := map[];
    for i := 0 to |entries|
      invariant ChecksOf(entries[..i]) == Some(checks)
    {
      assert entries[..i + 1][..i] == entries[..i];
      if entries[i].0 in checks {
        ChecksFail(entries, i + 1);
        return None;
      }
      checks := checks[entries[i].0 := entries[i].1];
    }
    assert entries[..|entries|] == entries;
    r := Some(checks);
  }

  function ChecksOf(entries: seq<(string, bool)>): Option<map<string, bool>> {
    if entries == [] then Some(map[])
    else
      var rest, last := ChecksOf(entries[..|entries| - 1]), entries[|entries| - 1];
      if rest == None || last.0 in rest.value then None else Some(rest.value[last.0 := last.1])
  }

  lemma {:induction false} ChecksFail(entries: seq<(string, bool)>, i: nat)
    requires i <= |entries| && ChecksOf(entries[..i]) == None
    ensures ChecksOf(entries) == None
    decreases |entries|
  {
    if i == |entries| {
      assert entries[..i] == entries;
    } else {
      var rest := entries[..|entries| - 1];
      assert rest[..i] == entries[..i];
      ChecksFail(rest, i);
    }
  }

  ghost predicate NamesDistinct(entries: seq<(string, bool)>) {
    forall i, j | 0 <= i < j < |entries| :: entries[i].0 != entries[j].0
  }

  /** The map holds every entry and nothing else. */
  ghost predicate HoldsEntries(checks: map<string, bool>, entries: seq<(string, bool)>) {
    && (forall i | 0 <= i < |entries| :: entries[i].0 in checks && checks[entries[i].0] == entries[i].1)
    && (forall name | name in checks :: exists i | 0 <= i < |entries| :: entries[i].0 == name)
  }

  lemma EntriesSnoc(checks: map<string, bool>, entries: seq<(string, bool)>, last: (string, bool))
    requires NamesDistinct(entries) && HoldsEntries(checks, entries)
    ensures NamesDistinct(entries + [last]) <==> last.0 !in checks
    ensures last.0 !in checks ==> HoldsEntries(checks[last.0 := last.1], entries + [last])
  {
    var more, n := entries + [last], |entries|;
    assert more[n] == last && forall i | 0 <= i < n :: more[i] == entries[i];
    if last.0 in checks {
      var i :| 0 <= i < n && entries[i].0 == last.0;
      assert more[i].0 == more[n].0;
    } else {
      forall name | name in checks ensures exists i | 0 <= i < |more| :: more[i].0 == name {
        var i :| 0 <= i < n && entries[i].0 == name;
        assert more[i].0 == name;
      }
    }
  }

  /** The map has exactly the entries, and there is one exactly when no name stands twice among them. */
  lemma {:induction false} ChecksExactly(entries: seq<(string, bool)>)
    ensures ChecksOf(entries).Some? <==> NamesDistinct(entries)
    ensures ChecksOf(entries).Some? ==> HoldsEntries(ChecksOf(entries).value, entries)
  {
    if entries != [] {
      var rest, last := entries[..|entries| - 1], entries[|entries| - 1];
      assert entries == rest + [last];
      ChecksExactly(rest);
      if ChecksOf(rest).Some? {
        hide NamesDistinct, HoldsEntries;
        EntriesSnoc(ChecksOf(rest).value, rest, last);
      } else {
        DistinctPrefix(rest, last);
      }
    }
  }

  lemma DistinctPrefix(entries: seq<(string, bool)>, last: (string, bool))
    ensures NamesDistinct(entries + [last]) ==> NamesDistinct(entries)
  {
    var more := entries + [last];
    assert forall i | 0 <= i < |entries| :: more[i] == entries[i];
  }

  /** The three tests of the source on the names of the checks. */
  predicate RequiredNames(checks: map<string, bool>) {
    && |checks| == |RUNTIME_CANARY_CHECKS|
    && (forall name | name in checks :: name in RUNTIME_CANARY_CHECKS)
    && (forall i | 0 <= i < |RUNTIME_CANARY_CHECKS| :: RUNTIME_CANARY_CHECKS[i] in checks)
  }

  lemma RequiredNamesExactly(checks: map<string, bool>)
    ensures RequiredNames(checks) <==> forall name :: name in checks <==> name in RUNTIME_CANARY_CHECKS
  {
    if forall name :: name in checks <==> name in RUNTIME_CANARY_CHECKS {
      CheckNamesDistinct();
      DistinctCardinality(RUNTIME_CANARY_CHECKS, checks.Keys);
      assert |checks| == |checks.Keys|;
    }
  }

  lemma CheckNamesDistinct()
    ensures forall i, j | 0 <= i < j < |RUNTIME_CANARY_CHECKS| :: RUNTIME_CANARY_CHECKS[i] != RUNTIME_CANARY_CHECKS[j]
  {
    var names := RUNTIME_CANARY_CHECKS;
    var lengths := [17, 21, 27, 22, 19, 24, 26, 23, 22, 16, 30, 17, 27, 28, 34, 18, 19];
    var initials := ['b', 'c', 'c', 'c', 'f', 'f', 'h', 'h', 'l', 'm', 'm', 'n', 'p', 's', 's', 't', 'w'];
    assert forall i | 0 <= i < 17 :: |names[i]| == lengths[i];
    assert forall i | 0 <= i < 17 :: names[i][0] == initials[i];
    assert forall i, j | 0 <= i < j < 17 :: lengths[i] != lengths[j] || initials[i] != initials[j];
  }

  /** One line, ended by the only newline in it. */
  predicate ReportFramed(output: string) {
    && 0 < |output| <= RUNTIME_CANARY_REPORT_MAX_BYTES
    && output[|output| - 1] == '\n' && '\n' !in output[..|output| - 1] && '\r' !in output
  }

  function ParseReport(output: string, ctx: Context): Option<Report> {
    if !ReportFramed(output) then None
    else
      var raw := ctx.decodeReport(output[..|output| - 1]);
      if raw == None then None
      else
        var checks := ChecksOf(raw.value.checks);
        if && checks.Some?
           && raw.value.schemaVersion == RUNTIME_CANARY_SCHEMA_VERSION && raw.value.suite == RUNTIME_CANARY_SUITE
           && raw.value.nonce == ctx.nonce && raw.value.binding == ctx.binding
           && raw.value.finalLine == ctx.finalLine && RequiredNames(checks.value)
        then Some(Report(ctx.nonce, ctx.binding, checks.value))
        else None
  }

  // ----- the sequence of events -----

  datatype State = AwaitThread | AwaitTurn | AwaitCommand | AwaitCompletion | AwaitMessage | AwaitEnd | Finished

  /** The variables of the parse loop. */
  datatype Loop = Loop(state: State, command: Option<string>, seen: set<string>, report: Option<Report>)

  const START: Loop := Loop(AwaitThread, None, {}, None)

  predicate ValidId(id: string) {
    0 < |id| <= 128 &&
    forall i | 0 <= i < |id| ::
      'a' <= id[i] <= 'z' || 'A' <= id[i] <= 'Z' || '0' <= id[i] <= '9' || id[i] == '-' || id[i] == '_'
  }

  function Step(l: Loop, e: Event, ctx: Context): Option<Loop> {
    match e
    case ThreadStarted(id) =>
      if l.state == AwaitThread && ValidId(id) then Some(l.(state := AwaitTurn)) else None
    case TurnStarted =>
      if l.state == AwaitTurn then Some(l.(state := AwaitCommand)) else None
    case CommandStarted(id, command, status) =>
      if l.state == AwaitCommand && ValidId(id) && id !in l.seen && command == ctx.command && status == "in_progress"
      then Some(Loop(AwaitCompletion, Some(id), l.seen + {id}, l.report))
      else None
    case CommandCompleted(id, command, output, exit, status) =>
      if && l.state == AwaitCompletion && l.command == Some(id) && command == ctx.command && status == "completed"
         && exit == 0 && ParseReport(output, ctx).Some?
      then Some(Loop(AwaitMessage, l.command, l.seen, ParseReport(output, ctx)))
      else None
    case Reasoning(id, _) =>
      if (l.state == AwaitCommand || l.state == AwaitMessage) && ValidId(id) && id !in l.seen
      then Some(l.(seen := l.seen + {id}))
      else None
    case AgentMessage(id, text) =>
      if l.state == AwaitMessage && ValidId(id) && id !in l.seen && text == ctx.finalLine
      then Some(l.(state := AwaitEnd, seen := l.seen + {id}))
      else None
    case TurnCompleted(usage) =>
      if l.state == AwaitEnd && usage != map[] then Some(l.(state := Finished)) else None
  }

  function Fold(es: seq<Event>, ctx: Context): Option<Loop> {
    if es == [] then Some(START)
    else
      var before := Fold(es[..|es| - 1], ctx);
      if before == None then None else Step(before.value, es[|es| - 1], ctx)
  }

  /** The id of the item an event introduces. */
  function OwnId(e: Event): Option<string> {
    if e.CommandStarted? || e.Reasoning? || e.AgentMessage? then Some(e.id) else None
  }

  ghost predicate IdsDistinct(es: seq<Event>) {
    && (forall i | 0 <= i < |es| && OwnId(es[i]).Some? :: ValidId(OwnId(es[i]).value))
    && (forall i, j | 0 <= i < j < |es| && OwnId(es[i]).Some? && OwnId(es[j]).Some? :: OwnId(es[i]) != OwnId(es[j]))
  }

  ghost predicate Opening(es: seq<Event>) {
    2 <= |es| && es[0].ThreadStarted? && ValidId(es[0].id) && es[1].TurnStarted?
  }

  ghost predicate OnlyReasoning(es: seq<Event>, lo: int, hi: int) {
    forall i | lo <= i < hi && 0 <= i < |es| :: es[i].Reasoning?
  }

  /** The command and its completion at positions p and p + 1, with the report that came out. */
  ghost predicate CommandAt(es: seq<Event>, p: nat, ctx: Context, report: Report) {
    && p + 1 < |es|
    && es[p].CommandStarted? && es[p].command == ctx.command && es[p].status == "in_progress"
    && es[p + 1].CommandCompleted? && es[p + 1].id == es[p].id && es[p + 1].command == ctx.command
    && es[p + 1].status == "completed" && es[p + 1].exitCode == 0
    && ParseReport(es[p + 1].output, ctx) == Some(report)
  }

  /**
    The grammar: a thread, a turn, reasoning, one successful run of the fixed command,
    reasoning, the bound message and a turn end that reports usage, with fresh item ids.
  */
  ghost predicate Accepted(es: seq<Event>, p: nat, ctx: Context, report: Report) {
    && Opening(es) && 2 <= p && p + 4 <= |es| && IdsDistinct(es)
    && OnlyReasoning(es, 2, p) && CommandAt(es, p, ctx, report) && OnlyReasoning(es, p + 2, |es| - 2)
    && es[|es| - 2].AgentMessage? && es[|es| - 2].text == ctx.finalLine
    && es[|es| - 1].TurnCompleted? && es[|es| - 1].usage != map[]
  }

  // ----- the loop accepts the grammar -----

  ghost predicate SeenIds(es: seq<Event>, seen: set<string>) {
    forall id :: id in seen <==> exists i | 0 <= i < |es| :: OwnId(es[i]) == Some(id)
  }

  /** What the loop's variables say about the events so far; p is where the command started. */
  ghost predicate Shape(es: seq<Event>, l: Loop, p: nat, ctx: Context) {
    && IdsDistinct(es) && SeenIds(es, l.seen)
    && match l.state
       case AwaitThread => es == []
       case AwaitTurn => |es| == 1 && es[0].ThreadStarted? && ValidId(es[0].id)
       case AwaitCommand => Opening(es) && OnlyReasoning(es, 2, |es|)
       case AwaitCompletion =>
         && Opening(es) && 2 <= p == |es| - 1 && OnlyReasoning(es, 2, p)
         && es[p].CommandStarted? && es[p].command == ctx.command && es[p].status == "in_progress"
         && l.command == Some(es[p].id)
       case AwaitMessage => Ran(es, l, p, ctx) && OnlyReasoning(es, p + 2, |es|)
       case AwaitEnd =>
         && Ran(es, l, p, ctx) && p + 3 <= |es| && OnlyReasoning(es, p + 2, |es| - 1)
         && es[|es| - 1].AgentMessage? && es[|es| - 1].text == ctx.finalLine
       case Finished => l.report.Some? && Accepted(es, p, ctx, l.report.value)
  }

  ghost predicate Ran(es: seq<Event>, l: Loop, p: nat, ctx: Context) {
    Opening(es) && 2 <= p && OnlyReasoning(es, 2, p) && l.report.Some? && CommandAt(es, p, ctx, l.report.value)
  }

  lemma SeenSnoc(es: seq<Event>, seen: set<string>, e: Event)
    requires SeenIds(es, seen)
    ensures SeenIds(es + [e], if OwnId(e).Some? then seen + {OwnId(e).value} else seen)
  {
    var more := es + [e];
    forall id ensures (exists i | 0 <= i < |more| :: OwnId(more[i]) == Some(id))
                      <==> (exists i | 0 <= i < |es| :: OwnId(es[i]) == Some(id)) || OwnId(e) == Some(id)
    {
      assert more[|es|] == e;
      if i :| 0 <= i < |es| && OwnId(es[i]) == Some(id) { assert OwnId(more[i]) == Some(id); }
    }
  }

  lemma IdsSnoc(es: seq<Event>, seen: set<string>, e: Event)
    requires IdsDistinct(es) && SeenIds(es, seen)
    requires OwnId(e).Some? ==> ValidId(OwnId(e).value) && OwnId(e).value !in seen
    ensures IdsDistinct(es + [e])
    ensures SeenIds(es + [e], if OwnId(e).Some? then seen + {OwnId(e).value} else seen)
  {
    SeenSnoc(es, seen, e);
    hide ValidId;
    var more := es + [e];
    forall i | 0 <= i < |more| && OwnId(more[i]).Some?
      ensures ValidId(OwnId(more[i]).value)
    {
      assert i < |es| ==> more[i] == es[i];
    }
    forall i, j | 0 <= i < j < |more| && OwnId(more[i]).Some? && OwnId(more[j]).Some?
      ensures OwnId(more[i]) != OwnId(more[j])
    {
      assert more[i] == es[i];
      assert j < |es| ==> more[j] == es[j];
    }
  }

  lemma ShapeStep(es: seq<Event>, l: Loop, p: nat, e: Event, ctx: Context) returns (q: nat)
    requires Shape(es, l, p, ctx) && Step(l, e, ctx).Some?
    ensures Shape(es + [e], Step(l, e, ctx).value, q, ctx)
  {
    hide IdsDistinct, SeenIds, ParseReport, ValidId;
    assert IdsDistinct(es + [e]) && SeenIds(es + [e], Step(l, e, ctx).value.seen) by { IdsSnoc(es, l.seen, e); }
    var more := es + [e];
    assert forall i | 0 <= i < |es| :: more[i] == es[i];
    q := if e.CommandStarted? then |es| else p;
  }

  lemma {:induction false} FoldShape(es: seq<Event>, ctx: Context) returns (p: nat)
    requires Fold(es, ctx).Some?
    ensures Shape(es, Fold(es, ctx).value, p, ctx)
  {
    hide Step;
    if es == [] {
      p := 0;
    } else {
      hide Shape;
      var rest := es[..|es| - 1];
      p := FoldShape(rest, ctx);
      p := ShapeStep(rest, Fold(rest, ctx).value, p, es[|es| - 1], ctx);
      assert rest + [es[|es| - 1]] == es;
    }
  }

  /** Where the loop must be after n events of an accepted stream. */
  function StateAfter(n: nat, p: nat, total: nat): State {
    if n == 0 then AwaitThread
    else if n == 1 then AwaitTurn
    else if n <= p then AwaitCommand
    else if n == p + 1 then AwaitCompletion
    else if n <= total - 2 then AwaitMessage
    else if n == total - 1 then AwaitEnd
    else Finished
  }

  ghost predicate OnTrack(es: seq<Event>, p: nat, report: Report, n: nat, l: Loop)
    requires p < |es| && es[p].CommandStarted?
  {
    && l.state == StateAfter(n, p, |es|)
    && (n > p ==> l.command == Some(es[p].id)) && (n > p + 1 ==> l.report == Some(report))
  }

  lemma TrackStep(es: seq<Event>, p: nat, ctx: Context, report: Report, n: nat, l: Loop)
    requires Accepted(es, p, ctx, report) && n < |es| && OnTrack(es, p, report, n, l)
    requires OwnId(es[n]).Some? ==> ValidId(OwnId(es[n]).value) && OwnId(es[n]).value !in l.seen
    ensures Step(l, es[n], ctx).Some? && OnTrack(es, p, report, n + 1, Step(l, es[n], ctx).value)
    ensures Step(l, es[n], ctx).value.seen == if OwnId(es[n]).Some? then l.seen + {OwnId(es[n]).value} else l.seen
  {
    hide IdsDistinct, ParseReport;
    assert 2 <= n < p ==> es[n].Reasoning?;
    assert p + 2 <= n < |es| - 2 ==> es[n].Reasoning?;
  }

  lemma {:induction false} AcceptedFolds(es: seq<Event>, p: nat, ctx: Context, report: Report, n: nat)
    requires Accepted(es, p, ctx, report) && es[p].CommandStarted? && n <= |es|
    ensures Fold(es[..n], ctx).Some?
    ensures OnTrack(es, p, report, n, Fold(es[..n], ctx).value) && SeenIds(es[..n], Fold(es[..n], ctx).value.seen)
  {
    hide Step, CommandAt, OnlyReasoning, IdsDistinct;
    if n > 0 {
      hide SeenIds, OnTrack;
      AcceptedFolds(es, p, ctx, report, n - 1);
      var before, e := es[..n - 1], es[n - 1];
      assert es[..n][..n - 1] == before && es[..n] == before + [e];
      var l := Fold(before, ctx).value;
      FreshHere(es, n - 1, l.seen);
      assert Fold(es[..n], ctx) == Step(l, e, ctx);
      TrackStep(es, p, ctx, report, n - 1, l);
      IdsSnoc(before, l.seen, e);
    }
  }

  lemma FreshHere(es: seq<Event>, n: nat, seen: set<string>)
    requires IdsDistinct(es) && n < |es| && SeenIds(es[..n], seen)
    ensures IdsDistinct(es[..n])
    ensures OwnId(es[n]).Some? ==> ValidId(OwnId(es[n]).value) && OwnId(es[n]).value !in seen
  {
    assert forall i | 0 <= i < n :: es[..n][i] == es[i];
  }

  /** The loop ends in its final state exactly on the streams of the grammar. */
  lemma FoldAccepts(es: seq<Event>, ctx: Context, report: Report)
    ensures (exists l :: Fold(es, ctx) == Some(l) && l.state == Finished && l.report == Some(report))
            <==> exists p :: Accepted(es, p, ctx, report)
  {
    if l :| Fold(es, ctx) == Some(l) && l.state == Finished && l.report == Some(report) {
      var p := FoldShape(es, ctx);
      assert Accepted(es, p, ctx, report);
    }
    if p :| Accepted(es, p, ctx, report) {
      assert CommandAt(es, p, ctx, report);
      AcceptedFolds(es, p, ctx, report, |es|);
      assert es[..|es|] == es;
    }
  }

  // ----- lines -----

  /** Where the first line of the text ends. */
  function LineEnd(s: string): (k: nat)
    ensures k <= |s| && '\n' !in s[..k] && (k < |s| ==> s[k] == '\n')
  {
    if s == "" || s[0] == '\n' then 0 else 1 + LineEnd(s[1..])
  }

  function Split(s: string): seq<string> {
    var k := LineEnd(s);
    if k == |s| then [s] else [s[..k]] + Split(s[k + 1..])
  }

  function Unlines(lines: seq<string>): string {
    if lines == [] then "" else lines[0] + "\n" + Unlines(lines[1..])
  }

  ghost predicate WithoutNewlines(lines: seq<string>) {
    forall i | 0 <= i < |lines| :: '\n' !in lines[i]
  }

  lemma {:induction false} SplitJoins(s: string)
    ensures Split(s) != [] && WithoutNewlines(Split(s)) && Unlines(Split(s)) == s + "\n"
  {
    var k := LineEnd(s);
    if k == |s| {
      assert s[..k] == s;
      assert Unlines([s]) == s + "\n" + Unlines([s][1..]);
    } else {
      var tail := s[k + 1..];
      SplitJoins(tail);
      ConsLine(s[..k], Split(tail));
      assert s == s[..k] + "\n" + tail;
      assert s + "\n" == s[..k] + "\n" + (tail + "\n");
    }
  }

  lemma ConsLine(line: string, lines: seq<string>)
    requires '\n' !in line && WithoutNewlines(lines)
    ensures WithoutNewlines([line] + lines) && Unlines([line] + lines) == line + "\n" + Unlines(lines)
  {
    assert ([line] + lines)[1..] == lines;
  }

  /** There is only one way to cut a text into lines. */
  lemma {:induction false} LinesUnique(a: seq<string>, b: seq<string>)
    requires WithoutNewlines(a) && WithoutNewlines(b) && Unlines(a) == Unlines(b)
    ensures a == b
  {
    if a != [] && b != [] {
      var text := Unlines(a);
      assert text[|a[0]|] == '\n' && text[|b[0]|] == '\n';
      assert text[..|a[0]|] == a[0] && text[..|b[0]|] == b[0];
      assert |a[0]| == |b[0]|;
      assert text[|a[0]| + 1..] == Unlines(a[1..]) && text[|b[0]| + 1..] == Unlines(b[1..]);
      LinesUnique(a[1..], b[1..]);
      assert a == [a[0]] + a[1..] && b == [b[0]] + b[1..];
    }
  }

  type Decoder = string -> Option<JsonValue>

  /** A line of the stream: bounded, decodable, no key twice anywhere, and the object of this event. */
  ghost predicate LineReads(line: string, decode: Decoder, e: Event) {
    && 0 < |line| <= CODEX_EXEC_CANARY_JSONL_LINE_MAX_BYTES
    && decode(line).Some? && NoDuplicates(decode(line).value) && Reads(decode(line).value, e)
  }

  ghost predicate LinesRead(lines: seq<string>, decode: Decoder, es: seq<Event>) {
    |lines| == |es| && forall i | 0 <= i < |lines| :: LineReads(lines[i], decode, es[i])
  }

  /** What the program should accept, and with which report. */
  ghost predicate AcceptableInput(input: string, decode: Decoder, ctx: Context, report: Report) {
    && |input| <= CODEX_EXEC_CANARY_JSONL_MAX_BYTES && '\r' !in input
    && exists lines, es, p ::
         Unlines(lines) == input && WithoutNewlines(lines) && LinesRead(lines, decode, es) && Accepted(es, p, ctx, report)
  }

  method ReadLine(line: string, decode: Decoder) returns (e: Option<Event>)
    ensures e.Some? ==> LineReads(line, decode, e.value)
    ensures e == None ==> forall any :: !LineReads(line, decode, any)
  {
    e := None;
    if line == "" || |line| > CODEX_EXEC_CANARY_JSONL_LINE_MAX_BYTES { return; }
    var j := decode(line);
    if j == None { return; }
    var clean := RejectDuplicates(j.value);
    if !clean { return; }
    e := Decode(j.value);
    forall any ensures Decode(j.value) == Some(any) <==> Reads(j.value, any) { DecodeExactly(j.value, any); }
  }

  lemma ReadsOnlyOne(j: JsonValue, e: Event, f: Event)
    requires Reads(j, e) && Reads(j, f)
    ensures e == f
  {
    DecodeExactly(j, e);
    DecodeExactly(j, f);
  }

  lemma {:induction false} FoldFails(es: seq<Event>, ctx: Context, n: nat)
    requires n <= |es| && Fold(es[..n], ctx) == None
    ensures Fold(es, ctx) == None
  {
    if n == |es| {
      assert es[..n] == es;
    } else {
      assert es[..|es| - 1][..n] == es[..n];
      FoldFails(es[..|es| - 1], ctx, n);
    }
  }

  /** The lines up to n lead the loop to l; whatever events the whole text has, these are the first of them. */
  ghost predicate Progress(lines: seq<string>, decode: Decoder, ctx: Context, n: nat, es: seq<Event>, l: Loop) {
    n <= |lines| && LinesRead(lines[..n], decode, es) && Fold(es, ctx) == Some(l)
  }

  lemma ProgressIsPrefix(lines: seq<string>, decode: Decoder, ctx: Context, n: nat, es: seq<Event>, l: Loop, all: seq<Event>)
    requires Progress(lines, decode, ctx, n, es, l) && LinesRead(lines, decode, all)
    ensures all[..n] == es
  {
    forall i | 0 <= i < n ensures all[i] == es[i] {
      assert lines[..n][i] == lines[i];
      assert LineReads(lines[i], decode, all[i]) && LineReads(lines[..n][i], decode, es[i]);
      ReadsOnlyOne(decode(lines[i]).value, all[i], es[i]);
    }
  }

  /** A line that does not read, or an event out of place, spoils every continuation. */
  lemma StuckRejects(lines: seq<string>, decode: Decoder, ctx: Context, n: nat, es: seq<Event>, l: Loop, all: seq<Event>, report: Report)
    requires Progress(lines, decode, ctx, n, es, l) && n < |lines| && LinesRead(lines, decode, all)
    requires LineReads(lines[n], decode, all[n]) ==> Step(l, all[n], ctx) == None
    ensures forall p :: !Accepted(all, p, ctx, report)
  {
    ProgressIsPrefix(lines, decode, ctx, n, es, l, all);
    assert all[..n + 1][..n] == es;
    assert Fold(all[..n + 1], ctx) == None;
    FoldFails(all, ctx, n + 1);
    if p :| Accepted(all, p, ctx, report) { FoldAccepts(all, ctx, report); }
  }

  method ParseLines(lines: seq<string>, decode: Decoder, ctx: Context) returns (r: Option<Report>)
    ensures forall report :: r == Some(report) <==>
              exists es, p :: LinesRead(lines, decode, es) && Accepted(es, p, ctx, report)
  {
    hide Step, Accepted, LineReads;
    var l := START;
    ghost var es: seq<Event> := [];
    for i := 0 to |lines|
      invariant Progress(lines, decode, ctx, i, es, l)
    {
      var e := ReadLine(lines[i], decode);
      var next := if e == None then None else Step(l, e.value, ctx);
      if next == None {
        forall report, all, p | LinesRead(lines, decode, all) && Accepted(all, p, ctx, report) ensures false {
          assert LineReads(lines[i], decode, all[i]);
          if e.Some? { SameEvent(lines[i], decode, e.value, all[i]); }
          StuckRejects(lines, decode, ctx, i, es, l, all, report);
        }
        return None;
      }
      assert lines[..i + 1] == lines[..i] + [lines[i]];
      assert (es + [e.value])[..i] == es;
      es, l := es + [e.value], next.value;
    }
    assert lines[..|lines|] == lines;
    r := if l.state == Finished then l.report else None;
    forall report ensures r == Some(report) <==> exists all, p :: LinesRead(lines, decode, all) && Accepted(all, p, ctx, report) {
      FoldAccepts(es, ctx, report);
      forall all | LinesRead(lines, decode, all) ensures all == es {
        ProgressIsPrefix(lines, decode, ctx, |lines|, es, l, all);
        assert all[..|lines|] == all;
      }
    }
  }

  lemma SameEvent(line: string, decode: Decoder, e: Event, f: Event)
    requires LineReads(line, decode, e) && LineReads(line, decode, f)
    ensures e == f
  {
    ReadsOnlyOne(decode(line).value, e, f);
  }

  /** The parser accepts exactly the acceptable inputs, and answers with their report. */
  method ParseStream(input: string, decode: Decoder, ctx: Context) returns (r: Option<Report>)
    ensures forall report :: r == Some(report) <==> AcceptableInput(input, decode, ctx, report)
  {
    hide Accepted, LinesRead;
    if || input == "" || |input| > CODEX_EXEC_CANARY_JSONL_MAX_BYTES
       || input[|input| - 1] != '\n' || '\r' in input {
      forall report ensures !AcceptableInput(input, decode, ctx, report) {
        if AcceptableInput(input, decode, ctx, report) { InputEnds(input, decode, ctx, report); }
      }
      return None;
    }
    var body := input[..|input| - 1];
    SplitJoins(body);
    assert body + "\n" == input;
    r := ParseLines(Split(body), decode, ctx);
    forall lines | Unlines(lines) == input && WithoutNewlines(lines) ensures lines == Split(body) {
      LinesUnique(lines, Split(body));
    }
  }

  lemma InputEnds(input: string, decode: Decoder, ctx: Context, report: Report)
    requires AcceptableInput(input, decode, ctx, report)
    ensures input != "" && input[|input| - 1] == '\n'
  {
    var lines, es, p :| Unlines(lines) == input && WithoutNewlines(lines) && LinesRead(lines, decode, es) && Accepted(es, p, ctx, report);
    UnlinesEnds(lines);
  }

  lemma {:induction false} UnlinesEnds(lines: seq<string>)
    requires lines != []
    ensures Unlines(lines) != "" && Unlines(lines)[|Unlines(lines)| - 1] == '\n'
  {
    if |lines| > 1 { UnlinesEnds(lines[1..]); }
  }
}
