/**
  The launcher's wire format: validation of requests and responses, bounding of what goes
  into a response, and length-prefixed frames of JSON text. A `char` is a Unicode scalar.
*/
module LauncherProtocol {
  import opened Common
  import opened JsonText

  const PROTOCOL_VERSION: nat := 1
  const FRAME_HEADER_BYTES: nat := 4
  const REQUEST_MAX_BYTES: nat := 512 * 1024
  const RESPONSE_MAX_BYTES: nat := 1024 * 1024
  const RUN_ID_MAX_BYTES: nat := 64
  const MESSAGE_ID_MAX_BYTES: nat := 256
  const PROMPT_MAX_CHARS: nat := 64 * 1024
  const PROMPT_MAX_BYTES: nat := 256 * 1024
  const WORKSPACE_PATH_MAX_BYTES: nat := 4 * 1024
  const MODEL_MAX_BYTES: nat := 128
  const TIMEOUT_SECONDS_MIN: nat := 1
  const TIMEOUT_SECONDS_MAX: nat := 60 * 60
  const OUTPUT_CHAR_LIMIT_MIN: nat := 1
  const OUTPUT_CHAR_LIMIT_MAX: nat := 100_000
  const OUTPUT_MAX_BYTES: nat := 4 * OUTPUT_CHAR_LIMIT_MAX
  const ERROR_MESSAGE_MAX_CHARS: nat := 1024
  const ERROR_MESSAGE_MAX_BYTES: nat := 4 * ERROR_MESSAGE_MAX_CHARS

  datatype Effort = Minimal | Low | Medium | High | Xhigh | Unknown

  datatype ExecuteRequest = ExecuteRequest(
    runId: string, messageId: string, prompt: string, workspace: string, model: Option<string>,
    effort: Option<Effort>, timeout: nat, outputLimit: nat, skipGitRepoCheck: bool)

  datatype RequestKind = Preflight | Execute(request: ExecuteRequest)

  datatype Request = Request(version: nat, kind: RequestKind)

  datatype Code =
    | UnsupportedVersion | MalformedRequest | RequestTooLarge | InvalidRunId | InvalidMessageId | InvalidPrompt
    | InvalidWorkspace | InvalidModel | InvalidReasoningEffort | InvalidTimeout | InvalidOutputLimit
    | ExecutionUnavailable | ExecutionTimedOut | ExecutionFailed | InternalError

  datatype ResponseKind =
    | Ready(available: bool)
    | Completed(runId: string, output: string, truncated: bool)
    | Rejected(rejectedRun: Option<string>, code: Code, message: string)

  datatype Response = Response(version: nat, kind: ResponseKind)

  datatype Error =
    | FrameTooShort | EmptyPayload | FrameLengthMismatch | TooLarge | InvalidJson | BadVersion | BadRunId
    | BadMessageId | BadPrompt | BadWorkspace | BadModel | BadReasoningEffort | BadTimeout | BadOutputLimit
    | BadOutput | BadErrorMessage

  // ----- validation -----

  /** Length in bytes, as the program measures strings. */
  function Size(s: string): nat {
    |EncodeAll(s)|
  }

  predicate IsControl(c: char) {
    c as int < 0x20 || 0x7f <= c as int < 0xa0
  }

  predicate IsWhitespace(c: char) {
    var n := c as int;
    || 9 <= n <= 13 || n in {0x20, 0x85, 0xa0, 0x1680} || 0x2000 <= n <= 0x200a
    || n in {0x2028, 0x2029, 0x202f, 0x205f, 0x3000}
  }

  predicate ValidRunId(s: string) {
    IsRunName(s) && Size(s) <= RUN_ID_MAX_BYTES
  }

  predicate ValidMessageId(s: string) {
    && s != "" && Size(s) <= MESSAGE_ID_MAX_BYTES
    && forall i | 0 <= i < |s| :: s[i] as int < 0x80 && !IsControl(s[i])
  }

  predicate ValidPrompt(s: string) {
    && (exists i | 0 <= i < |s| :: !IsWhitespace(s[i]))
    && Size(s) <= PROMPT_MAX_BYTES && |s| <= PROMPT_MAX_CHARS
    && forall i | 0 <= i < |s| :: IsControl(s[i]) ==> s[i] as int in {9, 10, 13}
  }

  function Components(s: string): seq<string> {
    if s == "" then [""]
    else
      var rest := Components(s[1..]);
      if s[0] == '/' then [""] + rest
      else if rest == [] then [[s[0]]] else [[s[0]] + rest[0]] + rest[1..]
  }

  predicate ValidWorkspace(s: string) {
    && Size(s) <= WORKSPACE_PATH_MAX_BYTES && (forall i | 0 <= i < |s| :: !IsControl(s[i]))
    && |s| > 1 && s[0] == '/'
    && forall i | 0 <= i < |Components(s[1..])| :: Components(s[1..])[i] !in {"", ".", ".."}
  }

  predicate ValidModel(s: string) {
    && s != "" && Size(s) <= MODEL_MAX_BYTES
    && forall i | 0 <= i < |s| :: IsAlphanumeric(s[i]) || s[i] in {'-', '_', '.'}
  }

  predicate ValidOutputLimit(limit: nat) {
    OUTPUT_CHAR_LIMIT_MIN <= limit <= OUTPUT_CHAR_LIMIT_MAX
  }

  function ExecuteFault(r: ExecuteRequest): Option<Error> {
    if !ValidRunId(r.runId) then Some(BadRunId)
    else if !ValidMessageId(r.messageId) then Some(BadMessageId)
    else if !ValidPrompt(r.prompt) then Some(BadPrompt)
    else if !ValidWorkspace(r.workspace) then Some(BadWorkspace)
    else if r.model.Some? && !ValidModel(r.model.value) then Some(BadModel)
    else if r.effort == Some(Unknown) then Some(BadReasoningEffort)
    else if !(TIMEOUT_SECONDS_MIN <= r.timeout <= TIMEOUT_SECONDS_MAX) then Some(BadTimeout)
    else if !ValidOutputLimit(r.outputLimit) then Some(BadOutputLimit)
    else None
  }

  function RequestFault(r: Request): Option<Error> {
    if r.version != PROTOCOL_VERSION then Some(BadVersion)
    else if r.kind.Execute? then ExecuteFault(r.kind.request)
    else None
  }

  predicate ValidMessage(s: string) {
    && s != "" && |s| <= ERROR_MESSAGE_MAX_CHARS && Size(s) <= ERROR_MESSAGE_MAX_BYTES
    && forall i | 0 <= i < |s| :: !IsControl(s[i])
  }

  function ResponseFault(r: Response): Option<Error> {
    if r.version != PROTOCOL_VERSION then Some(BadVersion)
    else match r.kind
      case Ready(_) => None
      case Completed(runId, output, _) =>
        if !ValidRunId(runId) then Some(BadRunId)
        else if |output| > OUTPUT_CHAR_LIMIT_MAX || Size(output) > OUTPUT_MAX_BYTES then Some(BadOutput)
        else None
      case Rejected(runId, _, message) =>
        if runId.Some? && !ValidRunId(runId.value) then Some(BadRunId)
        else if !ValidMessage(message) then Some(BadErrorMessage)
        else None
  }

  // ----- bounding -----

  function BoundOutput(output: string, limit: nat): Result<(string, bool), Error> {
    if !ValidOutputLimit(limit) then Err(BadOutputLimit)
    else if |output| <= limit then Ok((output, false))
    else Ok((output[..limit], true))
  }

  function CompletedBounded(runId: string, output: string, limit: nat): Result<ResponseKind, Error> {
    if !ValidOutputLimit(limit) then Err(BadOutputLimit)
    else if !ValidRunId(runId) then Err(BadRunId)
    else
      var bounded := BoundOutput(output, limit);
      if bounded.Err? then Err(bounded.error) else Ok(Completed(runId, bounded.value.0, bounded.value.1))
  }

  function Blank(s: string): (r: string)
    ensures |r| == |s| && forall i | 0 <= i < |s| :: r[i] == if IsControl(s[i]) then ' ' else s[i]
  {
    if s == "" then "" else [if IsControl(s[0]) then ' ' else s[0]] + Blank(s[1..])
  }

  function TrimStart(s: string): (r: string)
    ensures |r| <= |s| && r == s[|s| - |r|..] && (r == "" || !IsWhitespace(r[0]))
  {
    if s != "" && IsWhitespace(s[0]) then TrimStart(s[1..]) else s
  }

  function TrimEnd(s: string): (r: string)
    ensures r <= s && (r == "" || !IsWhitespace(r[|r| - 1]))
  {
    if s != "" && IsWhitespace(s[|s| - 1]) then TrimEnd(s[..|s| - 1]) else s
  }

  const DEFAULT_MESSAGE: string := "launcher request rejected"

  function BoundErrorMessage(message: string): string {
    var sanitized := Blank(message);
    var kept := if |sanitized| <= ERROR_MESSAGE_MAX_CHARS then sanitized else sanitized[..ERROR_MESSAGE_MAX_CHARS];
    var trimmed := TrimEnd(TrimStart(kept));
    if trimmed == "" then DEFAULT_MESSAGE else trimmed
  }

  function RejectedBounded(runId: Option<string>, code: Code, message: string): Result<ResponseKind, Error> {
    if runId.Some? && !ValidRunId(runId.value) then Err(BadRunId)
    else
      var kind := Rejected(runId, code, BoundErrorMessage(message));
      var fault := ResponseFault(Response(PROTOCOL_VERSION, kind));
      if fault.Some? then Err(fault.value) else Ok(kind)
  }

  lemma {:induction false} SizeBounds(s: string)
    ensures |s| <= Size(s) <= 4 * |s|
  {
    if s != "" { SizeBounds(s[1..]); }
  }

  predicate NoControls(s: string) {
    forall i | 0 <= i < |s| :: !IsControl(s[i])
  }

  predicate Trimmed(s: string) {
    s != "" ==> !IsWhitespace(s[0]) && !IsWhitespace(s[|s| - 1])
  }

  lemma CleanSlice(s: string, lo: nat, hi: nat)
    requires NoControls(s) && lo <= hi <= |s|
    ensures NoControls(s[lo..hi])
  {
  }

  lemma TrimmedClean(s: string)
    requires NoControls(s)
    ensures var t := TrimEnd(TrimStart(s)); |t| <= |s| && NoControls(t) && Trimmed(t)
  {
    hide NoControls, IsWhitespace, TrimStart, TrimEnd;
    var u := TrimStart(s);
    var t := TrimEnd(u);
    assert s[|s| - |u|..|s|] == u;
    CleanSlice(s, |s| - |u|, |s|);
    assert u[0..|t|] == t;
    CleanSlice(u, 0, |t|);
    if t != "" { assert t[0] == u[0]; }
  }

  lemma DefaultClean()
    ensures |DEFAULT_MESSAGE| == 25 && NoControls(DEFAULT_MESSAGE) && Trimmed(DEFAULT_MESSAGE)
  {
  }

  lemma BlankClean(s: string)
    ensures NoControls(Blank(s))
  {
  }

  lemma BoundedClean(message: string)
    ensures var r := BoundErrorMessage(message); r != "" && |r| <= ERROR_MESSAGE_MAX_CHARS && NoControls(r) && Trimmed(r)
  {
    hide NoControls, Trimmed, Blank, TrimStart, TrimEnd;
    var sanitized := Blank(message);
    BlankClean(message);
    if |sanitized| > ERROR_MESSAGE_MAX_CHARS { CleanSlice(sanitized, 0, ERROR_MESSAGE_MAX_CHARS); }
    TrimmedClean(if |sanitized| <= ERROR_MESSAGE_MAX_CHARS then sanitized else sanitized[0..ERROR_MESSAGE_MAX_CHARS]);
    DefaultClean();
  }

  /** A message that is clean and trimmed is its own bounded form. */
  lemma CleanUnchanged(s: string)
    requires s != "" && |s| <= ERROR_MESSAGE_MAX_CHARS && NoControls(s) && Trimmed(s)
    ensures BoundErrorMessage(s) == s
  {
    hide TrimStart, TrimEnd, Blank, IsControl;
    BlankUnchanged(s);
    TrimUnchanged(s);
  }

  lemma BlankUnchanged(s: string)
    requires NoControls(s)
    ensures Blank(s) == s
  {
  }

  lemma TrimUnchanged(s: string)
    requires Trimmed(s)
    ensures TrimStart(s) == s && TrimEnd(s) == s
  {
  }

  /** Every bounded message is acceptable, and bounding it again changes nothing. */
  lemma MessageBounded(message: string)
    ensures ValidMessage(BoundErrorMessage(message))
    ensures BoundErrorMessage(BoundErrorMessage(message)) == BoundErrorMessage(message)
  {
    hide BoundErrorMessage, Trimmed, IsControl;
    var r := BoundErrorMessage(message);
    BoundedClean(message);
    SizeBounds(r);
    CleanUnchanged(r);
  }

  /** A completed response is refused only for a bad run id or limit; it is valid and keeps a prefix of the output. */
  lemma CompletedValid(runId: string, output: string, limit: nat)
    ensures var c := CompletedBounded(runId, output, limit);
            && (c.Ok? <==> ValidOutputLimit(limit) && ValidRunId(runId))
            && (c.Ok? ==> && ResponseFault(Response(PROTOCOL_VERSION, c.value)) == None
                          && c.value == Completed(runId, output[..Min(limit, |output|)], limit < |output|))
  {
    hide ValidRunId;
    SizeBounds(output[..Min(limit, |output|)]);
    assert output[..|output|] == output;
  }

  /** A rejection is refused only for a bad run id, whatever the message. */
  lemma RejectedValid(runId: Option<string>, code: Code, message: string)
    ensures var r := RejectedBounded(runId, code, message);
            && (r.Ok? <==> runId == None || ValidRunId(runId.value))
            && (r.Ok? ==> && r.value == Rejected(runId, code, BoundErrorMessage(message))
                          && ResponseFault(Response(PROTOCOL_VERSION, r.value)) == None)
  {
    hide ValidRunId, BoundErrorMessage, ValidMessage;
    MessageBounded(message);
  }

  // ----- JSON form -----

  function EffortName(e: Effort): string {
    match e
    case Minimal => "minimal"
    case Low => "low"
    case Medium => "medium"
    case High => "high"
    case Xhigh => "xhigh"
    case Unknown => "unknown"
  }

  /** Any other name stands for an unknown effort. */
  function EffortNamed(name: string): Effort {
    if name == "minimal" then Minimal
    else if name == "low" then Low
    else if name == "medium" then Medium
    else if name == "high" then High
    else if name == "xhigh" then Xhigh
    else Unknown
  }

  function CodeName(c: Code): string {
    match c
    case UnsupportedVersion => "unsupported_version"
    case MalformedRequest => "malformed_request"
    case RequestTooLarge => "request_too_large"
    case InvalidRunId => "invalid_run_id"
    case InvalidMessageId => "invalid_message_id"
    case InvalidPrompt => "invalid_prompt"
    case InvalidWorkspace => "invalid_workspace"
    case InvalidModel => "invalid_model"
    case InvalidReasoningEffort => "invalid_reasoning_effort"
    case InvalidTimeout => "invalid_timeout"
    case InvalidOutputLimit => "invalid_output_limit"
    case ExecutionUnavailable => "execution_unavailable"
    case ExecutionTimedOut => "execution_timed_out"
    case ExecutionFailed => "execution_failed"
    case InternalError => "internal_error"
  }

  function CodeNamed(name: string): Option<Code> {
    if name == "unsupported_version" then Some(UnsupportedVersion)
    else if name == "malformed_request" then Some(MalformedRequest)
    else if name == "request_too_large" then Some(RequestTooLarge)
    else if name == "invalid_run_id" then Some(InvalidRunId)
    else if name == "invalid_message_id" then Some(InvalidMessageId)
    else if name == "invalid_prompt" then Some(InvalidPrompt)
    else if name == "invalid_workspace" then Some(InvalidWorkspace)
    else if name == "invalid_model" then Some(InvalidModel)
    else if name == "invalid_reasoning_effort" then Some(InvalidReasoningEffort)
    else if name == "invalid_timeout" then Some(InvalidTimeout)
    else if name == "invalid_output_limit" then Some(InvalidOutputLimit)
    else if name == "execution_unavailable" then Some(ExecutionUnavailable)
    else if name == "execution_timed_out" then Some(ExecutionTimedOut)
    else if name == "execution_failed" then Some(ExecutionFailed)
    else if name == "internal_error" then Some(InternalError)
    else None
  }

  lemma EffortReads(e: Effort)
    ensures EffortNamed(EffortName(e)) == e
  {
  }

  lemma CodeReads(c: Code)
    ensures CodeNamed(CodeName(c)) == Some(c)
  {
    match c
    case UnsupportedVersion =>
    case MalformedRequest =>
    case RequestTooLarge =>
    case InvalidRunId =>
    case InvalidMessageId =>
    case InvalidPrompt =>
    case InvalidWorkspace =>
    case InvalidModel =>
    case InvalidReasoningEffort =>
    case InvalidTimeout =>
    case InvalidOutputLimit =>
    case ExecutionUnavailable =>
    case ExecutionTimedOut =>
    case ExecutionFailed =>
    case InternalError =>
  }

  function OptionalString(s: Option<string>): Json {
    if s.Some? then Str(s.value) else Null
  }

  function ExecuteFields(r: ExecuteRequest): seq<Field> {
    [Field("type", Str("execute")),
     Field("run_id", Str(r.runId)),
     Field("message_id", Str(r.messageId)),
     Field("prompt", Str(r.prompt)),
     Field("workspace", Str(r.workspace)),
     Field("model", OptionalString(r.model)),
     Field("reasoning_effort", if r.effort.Some? then Str(EffortName(r.effort.value)) else Null),
     Field("timeout_seconds", Num(r.timeout)),
     Field("output_char_limit", Num(r.outputLimit)),
     Field("skip_git_repo_check", Bool(r.skipGitRepoCheck))]
  }

  function RequestJson(r: Request): Json {
    Obj([Field("version", Num(r.version)),
         Field("request", Obj(if r.kind.Execute? then ExecuteFields(r.kind.request) else [Field("type", Str("preflight"))]))])
  }

  function ResponseFields(k: ResponseKind): seq<Field> {
    match k
    case Ready(available) => [Field("type", Str("ready")), Field("execution_available", Bool(available))]
    case Completed(runId, output, truncated) =>
      [Field("type", Str("completed")), Field("run_id", Str(runId)), Field("output", Str(output)), Field("truncated", Bool(truncated))]
    case Rejected(runId, code, message) =>
      [Field("type", Str("rejected")), Field("run_id", OptionalString(runId)), Field("code", Str(CodeName(code))), Field("message", Str(message))]
  }

  function ResponseJson(r: Response): Json {
    Obj([Field("version", Num(r.version)), Field("response", Obj(ResponseFields(r.kind)))])
  }

  /** The value of a field, wherever in the object it stands. */
  function Get(fields: seq<Field>, name: string): Option<Json> {
    if fields == [] then None
    else if fields[0].name == name then Some(fields[0].value)
    else Get(fields[1..], name)
  }

  /** Every field once, and none but these. */
  predicate Only(fields: seq<Field>, names: seq<string>) {
    && (forall i | 0 <= i < |fields| :: fields[i].name in names)
    && forall i, j | 0 <= i < j < |fields| :: fields[i].name != fields[j].name
  }

  function GetString(fields: seq<Field>, name: string): Option<string> {
    var v := Get(fields, name);
    if v.Some? && v.value.Str? then Some(v.value.s) else None
  }

  /** A missing optional field reads like null. */
  function GetOptional(fields: seq<Field>, name: string): Option<Option<string>> {
    var v := Get(fields, name);
    if v == None || v == Some(Null) then Some(None)
    else if v.value.Str? then Some(Some(v.value.s))
    else None
  }

  function GetNumber(fields: seq<Field>, name: string, below: nat): Option<nat> {
    var v := Get(fields, name);
    if v.Some? && v.value.Num? && v.value.n < below then Some(v.value.n) else None
  }

  function GetBool(fields: seq<Field>, name: string): Option<bool> {
    var v := Get(fields, name);
    if v.Some? && v.value.Bool? then Some(v.value.b) else None
  }

  const EXECUTE_FIELDS: seq<string> := [
    "type", "run_id", "message_id", "prompt", "workspace", "model", "reasoning_effort", "timeout_seconds",
    "output_char_limit", "skip_git_repo_check"]

  function ReadExecute(fields: seq<Field>): Option<RequestKind> {
    var runId, messageId := GetString(fields, "run_id"), GetString(fields, "message_id");
    var prompt, workspace := GetString(fields, "prompt"), GetString(fields, "workspace");
    var model, effort := GetOptional(fields, "model"), GetOptional(fields, "reasoning_effort");
    var timeout := GetNumber(fields, "timeout_seconds", 0x1_0000_0000_0000_0000);
    var limit := GetNumber(fields, "output_char_limit", 0x1_0000_0000_0000_0000);
    var skip := GetBool(fields, "skip_git_repo_check");
    if && Only(fields, EXECUTE_FIELDS) && runId.Some? && messageId.Some? && prompt.Some? && workspace.Some?
       && model.Some? && effort.Some? && timeout.Some? && limit.Some? && skip.Some?
    then Some(Execute(ExecuteRequest(runId.value, messageId.value, prompt.value, workspace.value, model.value,
                                     if effort.value.Some? then Some(EffortNamed(effort.value.value)) else None,
                                     timeout.value, limit.value, skip.value)))
    else None
  }

  function ReadRequest(j: Json): Option<Request> {
    if !j.Obj? || !Only(j.fields, ["version", "request"]) then None
    else
      var version, inner := GetNumber(j.fields, "version", 0x1_0000), Get(j.fields, "request");
      if version == None || inner == None || !inner.value.Obj? then None
      else
        var fields := inner.value.fields;
        var kind :=
          if GetString(fields, "type") == Some("preflight") then (if Only(fields, ["type"]) then Some(Preflight) else None)
          else if GetString(fields, "type") == Some("execute") then ReadExecute(fields)
          else None;
        if kind == None then None else Some(Request(version.value, kind.value))
  }

  function ReadResponseKind(fields: seq<Field>): Option<ResponseKind> {
    var kind := GetString(fields, "type");
    if kind == Some("ready") then
      var available := GetBool(fields, "execution_available");
      if Only(fields, ["type", "execution_available"]) && available.Some? then Some(Ready(available.value)) else None
    else if kind == Some("completed") then
      var runId, output, truncated := GetString(fields, "run_id"), GetString(fields, "output"), GetBool(fields, "truncated");
      if Only(fields, ["type", "run_id", "output", "truncated"]) && runId.Some? && output.Some? && truncated.Some?
      then Some(Completed(runId.value, output.value, truncated.value))
      else None
    else if kind == Some("rejected") then
      var runId, code, message := GetOptional(fields, "run_id"), GetString(fields, "code"), GetString(fields, "message");
      if && Only(fields, ["type", "run_id", "code", "message"]) && runId.Some? && code.Some? && message.Some?
         && CodeNamed(code.value).Some?
      then Some(Rejected(runId.value, CodeNamed(code.value).value, message.value))
      else None
    else None
  }

  function ReadResponse(j: Json): Option<Response> {
    if !j.Obj? || !Only(j.fields, ["version", "response"]) then None
    else
      var version, inner := GetNumber(j.fields, "version", 0x1_0000), Get(j.fields, "response");
      if version == None || inner == None || !inner.value.Obj? then None
      else
        var kind := ReadResponseKind(inner.value.fields);
        if kind == None then None else Some(Response(version.value, kind.value))
  }

  lemma {:induction false} GetAt(fields: seq<Field>, i: nat)
    requires i < |fields| && forall a, b | 0 <= a < b < |fields| :: fields[a].name != fields[b].name
    ensures Get(fields, fields[i].name) == Some(fields[i].value)
  {
    if i > 0 { GetAt(fields[1..], i - 1); }
  }

  lemma ExecuteNamesDistinct()
    ensures |EXECUTE_FIELDS| == 10 && forall i, j | 0 <= i < j < 10 :: EXECUTE_FIELDS[i] != EXECUTE_FIELDS[j]
  {
    var lengths := [4, 6, 10, 6, 9, 5, 16, 15, 17, 19];
    assert forall i | 0 <= i < 10 :: |EXECUTE_FIELDS[i]| == lengths[i];
    assert EXECUTE_FIELDS[1][0] == 'r' && EXECUTE_FIELDS[3][0] == 'p';
    assert forall i, j | 0 <= i < j < 10 :: lengths[i] != lengths[j] || (i, j) == (1, 3);
  }

  lemma ExecuteNamed(r: ExecuteRequest)
    ensures |ExecuteFields(r)| == 10 && forall i | 0 <= i < 10 :: ExecuteFields(r)[i].name == EXECUTE_FIELDS[i]
  {
  }

  lemma ExecuteOnly(r: ExecuteRequest)
    ensures Only(ExecuteFields(r), EXECUTE_FIELDS)
  {
    hide ExecuteFields;
    ExecuteNamed(r);
    ExecuteNamesDistinct();
  }

  lemma ExecuteGet(r: ExecuteRequest, i: nat)
    requires i < 10
    ensures |ExecuteFields(r)| == 10 && Get(ExecuteFields(r), EXECUTE_FIELDS[i]) == Some(ExecuteFields(r)[i].value)
  {
    hide ExecuteFields, Get;
    ExecuteNamed(r);
    ExecuteNamesDistinct();
    GetAt(ExecuteFields(r), i);
  }

  lemma ExecuteReads(r: ExecuteRequest)
    requires r.timeout < 0x1_0000_0000_0000_0000 && r.outputLimit < 0x1_0000_0000_0000_0000
    ensures ReadExecute(ExecuteFields(r)) == Some(Execute(r)) && GetString(ExecuteFields(r), "type") == Some("execute")
  {
    hide Get, Only, EffortName, EffortNamed;
    ExecuteOnly(r);
    ExecuteGet(r, 0);
    ExecuteGet(r, 1);
    ExecuteGet(r, 2);
    ExecuteGet(r, 3);
    ExecuteGet(r, 4);
    ExecuteGet(r, 5);
    ExecuteGet(r, 6);
    ExecuteGet(r, 7);
    ExecuteGet(r, 8);
    ExecuteGet(r, 9);
    if r.effort.Some? { EffortReads(r.effort.value); }
  }

  lemma PairOnly(a: Field, b: Field)
    requires a.name != b.name
    ensures Only([a, b], [a.name, b.name]) && Get([a, b], a.name) == Some(a.value) && Get([a, b], b.name) == Some(b.value)
  {
    assert [a, b][1..] == [b];
  }

  /** A request within the number ranges of its fields is read back from its JSON form. */
  lemma RequestReads(r: Request)
    requires r.version < 0x1_0000
    requires r.kind.Execute? ==>
               r.kind.request.timeout < 0x1_0000_0000_0000_0000 && r.kind.request.outputLimit < 0x1_0000_0000_0000_0000
    ensures ReadRequest(RequestJson(r)) == Some(r)
  {
    hide ReadExecute, ExecuteFields;
    var inner := if r.kind.Execute? then ExecuteFields(r.kind.request) else [Field("type", Str("preflight"))];
    PairOnly(Field("version", Num(r.version)), Field("request", Obj(inner)));
    if r.kind.Execute? { ExecuteReads(r.kind.request); }
  }

  lemma CompletedReads(runId: string, output: string, truncated: bool)
    ensures ReadResponseKind(ResponseFields(Completed(runId, output, truncated))) == Some(Completed(runId, output, truncated))
  {
    hide Get;
    var fields := ResponseFields(Completed(runId, output, truncated));
    assert |fields[0].name| == 4 && |fields[1].name| == 6 && |fields[2].name| == 6 && |fields[3].name| == 9;
    assert fields[1].name[0] == 'r' && fields[2].name[0] == 'o';
    GetAt(fields, 0);
    GetAt(fields, 1);
    GetAt(fields, 2);
    GetAt(fields, 3);
  }

  lemma RejectedReads(runId: Option<string>, code: Code, message: string)
    ensures ReadResponseKind(ResponseFields(Rejected(runId, code, message))) == Some(Rejected(runId, code, message))
  {
    hide Get, CodeName, CodeNamed;
    var fields := ResponseFields(Rejected(runId, code, message));
    assert |fields[0].name| == 4 && |fields[1].name| == 6 && |fields[2].name| == 4 && |fields[3].name| == 7;
    assert fields[0].name[0] == 't' && fields[2].name[0] == 'c';
    CodeReads(code);
    GetAt(fields, 0);
    GetAt(fields, 1);
    GetAt(fields, 2);
    GetAt(fields, 3);
  }

  lemma ReadyReads(available: bool)
    ensures ReadResponseKind(ResponseFields(Ready(available))) == Some(Ready(available))
  {
    PairOnly(Field("type", Str("ready")), Field("execution_available", Bool(available)));
  }

  lemma ResponseReads(r: Response)
    requires r.version < 0x1_0000
    ensures ReadResponse(ResponseJson(r)) == Some(r)
  {
    hide ReadResponseKind, ResponseFields;
    PairOnly(Field("version", Num(r.version)), Field("response", Obj(ResponseFields(r.kind))));
    match r.kind
    case Ready(available) => ReadyReads(available);
    case Completed(runId, output, truncated) => CompletedReads(runId, output, truncated);
    case Rejected(runId, code, message) => RejectedReads(runId, code, message);
  }

  // ----- how long the text gets -----

  lemma SizeConcat(a: string, b: string)
    ensures Size(a + b) == Size(a) + Size(b)
  {
    EncodeConcat(a, b);
  }

  lemma EscapeSize(c: char)
    ensures |Escape(c)| <= 6 && Size(Escape(c)) <= 6
    ensures !IsControl(c) || c as int in {9, 10, 13} ==> Size(Escape(c)) <= 4
    ensures c as int < 0x80 && !IsControl(c) ==> Size(Escape(c)) <= 2
  {
    var e := Escape(c);
    if |e| == 1 {
      assert e == [c] && e[1..] == "";
      assert EncodeAll(e) == Encode(c) + EncodeAll("");
    } else if |e| == 2 {
      assert forall i | 0 <= i < 2 :: e[i] as int < 0x80;
      AsciiSize(e);
    } else {
      assert forall i | 0 <= i < 6 :: e[i] as int < 0x80;
      AsciiSize(e);
    }
  }

  lemma {:induction false} AsciiSize(s: string)
    requires forall i | 0 <= i < |s| :: s[i] as int < 0x80
    ensures Size(s) == |s|
  {
    if s != "" { AsciiSize(s[1..]); }
  }

  lemma Times(a: nat, n: nat)
    ensures a + a * n == a * (n + 1)
  {
  }

  /** Escaping and encoding together never take more than the worst character allows. */
  lemma {:induction false} EscapedSize(s: string, most: nat)
    requires forall i | 0 <= i < |s| :: Size(Escape(s[i])) <= most
    ensures Size(EscapeAll(s)) <= most * |s|
  {
    if s != "" {
      hide Size, Escape;
      SizeConcat(Escape(s[0]), EscapeAll(s[1..]));
      EscapedSize(s[1..], most);
      Times(most, |s| - 1);
    }
  }

  lemma {:induction false} DecimalSize(n: nat, digits: nat)
    requires n < Power10(digits) && digits > 0
    ensures Size(Decimal(n)) <= digits
    decreases digits
  {
    if n >= 10 {
      assert digits > 1;
      assert n / 10 < Power10(digits - 1);
      SizeConcat(Decimal(n / 10), [HEX_DIGITS[n % 10]]);
      DecimalSize(n / 10, digits - 1);
    }
    AsciiDigit(n % 10);
  }

  lemma AsciiDigit(n: nat)
    requires n < 10
    ensures Size([HEX_DIGITS[n]]) == 1
  {
    AsciiSize([HEX_DIGITS[n]]);
  }

  function Power10(n: nat): nat {
    if n == 0 then 1 else 10 * Power10(n - 1)
  }

  /** What a field adds to an object: its name, its value, the colon and the comma or brace. */
  function FieldSize(f: Field): nat {
    Size(PrintString(f.name)) + Size(Print(f.value)) + 2
  }

  lemma QuotedSize(s: string, most: nat, n: nat)
    requires |s| <= n && forall i | 0 <= i < |s| :: Size(Escape(s[i])) <= most
    ensures Size(PrintString(s)) <= most * n + 2
  {
    hide Escape, EscapeAll;
    EscapedSize(s, most);
    Monotone(most, |s|, n);
    SizeConcat(EscapeAll(s), "\"");
    SizeConcat("\"", EscapeAll(s) + "\"");
    AsciiSize("\"");
  }

  lemma Monotone(a: nat, m: nat, n: nat)
    requires m <= n
    ensures a * m <= a * n
  {
  }

  lemma PrintFieldsSize(fields: seq<Field>)
    requires fields != []
    ensures Size(PrintFields(fields))
         == FieldSize(fields[0]) + if |fields| == 1 then 0 else Size(PrintFields(fields[1..]))
  {
    hide Print, PrintString, EncodeAll;
    var name, value, rest := PrintString(fields[0].name), Print(fields[0].value), PrintRest(fields);
    SizeConcat(value, rest);
    SizeConcat(":", value + rest);
    SizeConcat(name, ":" + (value + rest));
    Punctuation();
    if |fields| > 1 { SizeConcat(",", PrintFields(fields[1..])); }
  }

  lemma Punctuation()
    ensures Size(":") == 1 && Size(",") == 1 && Size("{") == 1 && Size("}") == 1
  {
    AsciiSize(":");
    AsciiSize(",");
    AsciiSize("{");
    AsciiSize("}");
  }

  /** An object with one large field. */
  lemma {:induction false} FieldsBound(fields: seq<Field>, p: nat, small: nat, large: nat)
    requires p < |fields| && FieldSize(fields[p]) <= large
    requires forall i | 0 <= i < |fields| && i != p :: FieldSize(fields[i]) <= small
    ensures Size(PrintFields(fields)) <= small * (|fields| - 1) + large
  {
    hide FieldSize, Size, PrintFields;
    PrintFieldsSize(fields);
    if |fields| > 1 {
      Times(small, |fields| - 2);
      if p == 0 { FieldsBound(fields[1..], 0, small, small); } else { FieldsBound(fields[1..], p - 1, small, large); }
    }
  }

  lemma ObjectSize(fields: seq<Field>)
    requires fields != []
    ensures Size(Print(Obj(fields))) == 1 + Size(PrintFields(fields))
  {
    SizeConcat("{", PrintFields(fields));
    Punctuation();
  }

  lemma NameSize(name: string)
    requires |name| <= 19
    ensures Size(PrintString(name)) <= 116
  {
    forall i | 0 <= i < |name| ensures Size(Escape(name[i])) <= 6 { EscapeSize(name[i]); }
    QuotedSize(name, 6, 19);
  }

  /** Any text: six bytes a character. */
  lemma AnyFieldSize(name: string, s: string, n: nat)
    requires |name| <= 19 && |s| <= n
    ensures FieldSize(Field(name, Str(s))) <= 6 * n + 120
  {
    NameSize(name);
    forall i | 0 <= i < |s| ensures Size(Escape(s[i])) <= 6 { EscapeSize(s[i]); }
    QuotedSize(s, 6, n);
  }

  /** Text whose only control characters are tab, newline and carriage return: four bytes a character. */
  lemma PlainFieldSize(name: string, s: string, n: nat)
    requires |name| <= 19 && |s| <= n && forall i | 0 <= i < |s| :: IsControl(s[i]) ==> s[i] as int in {9, 10, 13}
    ensures FieldSize(Field(name, Str(s))) <= 4 * n + 120
  {
    NameSize(name);
    forall i | 0 <= i < |s| ensures Size(Escape(s[i])) <= 4 { EscapeSize(s[i]); }
    QuotedSize(s, 4, n);
  }

  lemma SmallFieldSize(name: string, value: Json)
    requires |name| <= 19 && (value.Null? || value.Bool? || (value.Num? && value.n < 1_000_000))
    ensures FieldSize(Field(name, value)) <= 130
  {
    NameSize(name);
    match value
    case Null => AsciiSize("null");
    case Bool(b) => AsciiSize(if b then "true" else "false");
    case Num(n) =>
      assert Power10(6) == 1_000_000;
      DecimalSize(n, 6);
  }

  lemma OptionalFieldSize(name: string, s: Option<string>, n: nat)
    requires |name| <= 19 && (s.Some? ==> |s.value| <= n)
    ensures FieldSize(Field(name, OptionalString(s))) <= 6 * n + 130
  {
    if s.Some? { AnyFieldSize(name, s.value, n); } else { SmallFieldSize(name, Null); }
  }

  lemma ExecuteSize(r: ExecuteRequest)
    requires ExecuteFault(r) == None
    ensures Size(PrintFields(ExecuteFields(r))) <= 16_600 * 9 + 262_400
  {
    hide FieldSize, Size, PrintFields, ValidPrompt, ValidWorkspace, ValidRunId, ValidMessageId, ValidModel;
    assert |r.runId| <= 64 && |r.messageId| <= 256 && |r.workspace| <= 4096 && (r.model.Some? ==> |r.model.value| <= 128) by {
      TextLimits(r);
    }
    AnyFieldSize("type", "execute", 16);
    AnyFieldSize("run_id", r.runId, 64);
    AnyFieldSize("message_id", r.messageId, 256);
    PromptSize(r.prompt);
    WorkspaceSize(r.workspace);
    OptionalFieldSize("model", r.model, 128);
    OptionalFieldSize("reasoning_effort", if r.effort.Some? then Some(EffortName(r.effort.value)) else None, 16);
    SmallFieldSize("timeout_seconds", Num(r.timeout));
    SmallFieldSize("output_char_limit", Num(r.outputLimit));
    SmallFieldSize("skip_git_repo_check", Bool(r.skipGitRepoCheck));
    FieldsBound(ExecuteFields(r), 3, 16_600, 262_400);
  }

  lemma TextLimits(r: ExecuteRequest)
    requires ExecuteFault(r) == None
    ensures |r.runId| <= 64 && |r.messageId| <= 256 && |r.workspace| <= 4096 && (r.model.Some? ==> |r.model.value| <= 128)
  {
    SizeBounds(r.runId);
    SizeBounds(r.messageId);
    SizeBounds(r.workspace);
    if r.model.Some? { SizeBounds(r.model.value); }
  }

  lemma PromptSize(prompt: string)
    requires ValidPrompt(prompt)
    ensures FieldSize(Field("prompt", Str(prompt))) <= 262_400
  {
    PlainFieldSize("prompt", prompt, PROMPT_MAX_CHARS);
  }

  lemma WorkspaceSize(workspace: string)
    requires ValidWorkspace(workspace)
    ensures FieldSize(Field("workspace", Str(workspace))) <= 16_600
  {
    SizeBounds(workspace);
    PlainFieldSize("workspace", workspace, WORKSPACE_PATH_MAX_BYTES);
  }

  /** The outer object around a body of at most `body` bytes. */
  lemma EnvelopeSize(name: string, version: nat, fields: seq<Field>, body: nat)
    requires |name| <= 19 && version < 1_000_000 && fields != [] && Size(PrintFields(fields)) <= body
    ensures 0 < Size(Print(Obj([Field("version", Num(version)), Field(name, Obj(fields))]))) <= body + 300
  {
    hide Size, PrintFields, PrintString;
    var outer := [Field("version", Num(version)), Field(name, Obj(fields))];
    SmallFieldSize("version", Num(version));
    NameSize(name);
    ObjectSize(fields);
    FieldsBound(outer, 1, 130, body + 120);
    ObjectSize(outer);
  }

  /** Every valid request fits its frame, under the worst escaping and the widest characters. */
  lemma RequestFits(r: Request)
    requires RequestFault(r) == None
    ensures 0 < Size(Print(RequestJson(r))) <= REQUEST_MAX_BYTES
  {
    hide Size, Print, PrintFields, ExecuteFault;
    if r.kind.Execute? {
      ExecuteSize(r.kind.request);
      EnvelopeSize("request", r.version, ExecuteFields(r.kind.request), 16_600 * 9 + 262_400);
    } else {
      var fields := [Field("type", Str("preflight"))];
      AnyFieldSize("type", "preflight", 16);
      FieldsBound(fields, 0, 0, 300);
      EnvelopeSize("request", r.version, fields, 300);
    }
  }

  lemma ResponseFieldsSize(k: ResponseKind)
    requires ResponseFault(Response(PROTOCOL_VERSION, k)) == None
    ensures ResponseFields(k) != [] && Size(PrintFields(ResponseFields(k))) <= 602_000
  {
    hide FieldSize, Size, PrintFields;
    match k
    case Ready(available) =>
      AnyFieldSize("type", "ready", 16);
      SmallFieldSize("execution_available", Bool(available));
      FieldsBound(ResponseFields(k), 1, 300, 300);
    case Completed(runId, output, truncated) =>
      RunIdLength(runId);
      AnyFieldSize("type", "completed", 16);
      AnyFieldSize("run_id", runId, 64);
      AnyFieldSize("output", output, OUTPUT_CHAR_LIMIT_MAX);
      SmallFieldSize("truncated", Bool(truncated));
      FieldsBound(ResponseFields(k), 2, 510, 600_120);
    case Rejected(runId, code, message) =>
      if runId.Some? { RunIdLength(runId.value); }
      AnyFieldSize("type", "rejected", 16);
      OptionalFieldSize("run_id", runId, 64);
      AnyFieldSize("code", CodeName(code), 32);
      AnyFieldSize("message", message, ERROR_MESSAGE_MAX_CHARS);
      FieldsBound(ResponseFields(k), 3, 600, 6_300);
  }

  lemma RunIdLength(s: string)
    requires ValidRunId(s)
    ensures |s| <= 64
  {
    SizeBounds(s);
  }

  lemma ResponseFits(r: Response)
    requires ResponseFault(r) == None
    ensures 0 < Size(Print(ResponseJson(r))) <= RESPONSE_MAX_BYTES
  {
    hide Size, Print, PrintFields, ResponseFields;
    ResponseFieldsSize(r.kind);
    EnvelopeSize("response", r.version, ResponseFields(r.kind), 602_000);
  }

  // ----- frames -----

  /** The length prefix: four bytes, the highest first. */
  function Header(n: nat): seq<Byte>
    requires n < 0x1_0000_0000
  {
    [n / 0x100_0000, n / 0x1_0000 % 0x100, n / 0x100 % 0x100, n % 0x100]
  }

  function HeaderValue(h: seq<Byte>): nat
    requires |h| == 4
  {
    var a: int := h[0];
    0x100_0000 * a + 0x1_0000 * h[1] as int + 0x100 * h[2] as int + h[3] as int
  }

  function EncodeFrame(payload: seq<Byte>, max: nat): Result<seq<Byte>, Error> {
    if payload == [] then Err(EmptyPayload)
    else if |payload| > max || |payload| >= 0x1_0000_0000 then Err(TooLarge)
    else Ok(Header(|payload|) + payload)
  }

  function DecodeFrame(frame: seq<Byte>, max: nat): Result<seq<Byte>, Error> {
    if |frame| < FRAME_HEADER_BYTES then Err(FrameTooShort)
    else
      var length := HeaderValue(frame[..FRAME_HEADER_BYTES]);
      if length == 0 then Err(EmptyPayload)
      else if length > max then Err(TooLarge)
      else if |frame| != FRAME_HEADER_BYTES + length then Err(FrameLengthMismatch)
      else Ok(frame[FRAME_HEADER_BYTES..])
  }

  lemma HeaderReads(n: nat)
    requires n < 0x1_0000_0000
    ensures HeaderValue(Header(n)) == n
  {
    var a, b := n / 0x100, n / 0x1_0000;
    assert n == 0x100 * a + n % 0x100 && a == 0x100 * b + a % 0x100 && b == 0x100 * (n / 0x100_0000) + b % 0x100;
  }

  lemma LastDigit(m: nat, x: Byte, n: nat, y: Byte)
    requires 256 * m + x as int == 256 * n + y as int
    ensures m == n && x == y
  {
  }

  lemma HeaderUnique(g: seq<Byte>, h: seq<Byte>)
    requires |g| == 4 && |h| == 4 && HeaderValue(g) == HeaderValue(h)
    ensures g == h
  {
    var g0: int, g1: int, g2: int := g[0], g[1], g[2];
    var h0: int, h1: int, h2: int := h[0], h[1], h[2];
    LastDigit(256 * (256 * g0 + g1) + g2, g[3], 256 * (256 * h0 + h1) + h2, h[3]);
    LastDigit(256 * g0 + g1, g[2], 256 * h0 + h1, h[2]);
    LastDigit(g0, g[1], h0, h[1]);
  }

  /** A frame decodes to a payload exactly when it is that payload behind its own length, within the limits. */
  lemma FrameExactly(frame: seq<Byte>, payload: seq<Byte>, max: nat)
    requires max < 0x1_0000_0000
    ensures DecodeFrame(frame, max) == Ok(payload) <==> EncodeFrame(payload, max) == Ok(frame)
  {
    hide Header, HeaderValue;
    if EncodeFrame(payload, max) == Ok(frame) {
      HeaderReads(|payload|);
      HeaderLength(|payload|);
      assert frame[..4] == Header(|payload|);
    }
    if DecodeFrame(frame, max) == Ok(payload) {
      HeaderReads(|payload|);
      HeaderLength(|payload|);
      HeaderUnique(frame[..4], Header(|payload|));
      assert frame == frame[..4] + frame[4..];
    }
  }

  lemma HeaderLength(n: nat)
    requires n < 0x1_0000_0000
    ensures |Header(n)| == 4
  {
  }

  /** A payload is the UTF-8 form of one JSON value and nothing after it. */
  function ReadPayload(payload: seq<Byte>): Option<Json> {
    var text := DecodeAll(payload);
    if text == None then None
    else
      var read := ReadValue(text.value);
      if read.Some? && read.value.1 == "" then Some(read.value.0) else None
  }

  lemma PayloadReads(j: Json)
    ensures ReadPayload(EncodeAll(Print(j))) == Some(j)
  {
    hide ReadValue, Print, DecodeAll, EncodeAll;
    Utf8RoundTrip(Print(j));
    ValueReads(j, "");
    assert Print(j) + "" == Print(j);
  }

  function EncodeRequest(r: Request): Result<seq<Byte>, Error> {
    var fault := RequestFault(r);
    if fault.Some? then Err(fault.value) else EncodeFrame(EncodeAll(Print(RequestJson(r))), REQUEST_MAX_BYTES)
  }

  function DecodeRequest(frame: seq<Byte>): Result<Request, Error> {
    var payload := DecodeFrame(frame, REQUEST_MAX_BYTES);
    if payload.Err? then Err(payload.error)
    else
      var j := ReadPayload(payload.value);
      if j == None then Err(InvalidJson)
      else
        var r := ReadRequest(j.value);
        if r == None then Err(InvalidJson)
        else
          var fault := RequestFault(r.value);
          if fault.Some? then Err(fault.value) else Ok(r.value)
  }

  function EncodeResponse(r: Response): Result<seq<Byte>, Error> {
    var fault := ResponseFault(r);
    if fault.Some? then Err(fault.value) else EncodeFrame(EncodeAll(Print(ResponseJson(r))), RESPONSE_MAX_BYTES)
  }

  function DecodeResponse(frame: seq<Byte>): Result<Response, Error> {
    var payload := DecodeFrame(frame, RESPONSE_MAX_BYTES);
    if payload.Err? then Err(payload.error)
    else
      var j := ReadPayload(payload.value);
      if j == None then Err(InvalidJson)
      else
        var r := ReadResponse(j.value);
        if r == None then Err(InvalidJson)
        else
          var fault := ResponseFault(r.value);
          if fault.Some? then Err(fault.value) else Ok(r.value)
  }

  lemma RequestInRange(r: Request)
    requires RequestFault(r) == None
    ensures r.version < 0x1_0000
    ensures r.kind.Execute? ==>
              r.kind.request.timeout < 0x1_0000_0000_0000_0000 && r.kind.request.outputLimit < 0x1_0000_0000_0000_0000
  {
  }

  /** A payload within the limit is framed, and its frame gives it back. */
  lemma FrameRoundTrip(payload: seq<Byte>, max: nat)
    requires 0 < |payload| <= max < 0x1_0000_0000
    ensures var frame := EncodeFrame(payload, max);
            frame.Ok? && |frame.value| <= FRAME_HEADER_BYTES + max && DecodeFrame(frame.value, max) == Ok(payload)
  {
    hide Header;
    HeaderLength(|payload|);
    FrameExactly(Header(|payload|) + payload, payload, max);
  }

  /** Every valid request can be sent, and arrives as it was. */
  lemma RequestRoundTrip(r: Request)
    ensures RequestFault(r) == None <==> EncodeRequest(r).Ok?
    ensures RequestFault(r) == None ==>
              |EncodeRequest(r).value| <= FRAME_HEADER_BYTES + REQUEST_MAX_BYTES && DecodeRequest(EncodeRequest(r).value) == Ok(r)
  {
    hide Print, RequestJson, ReadRequest, ReadPayload, EncodeAll, RequestFault, EncodeFrame, DecodeFrame;
    if RequestFault(r) == None {
      RequestInRange(r);
      RequestFits(r);
      FrameRoundTrip(EncodeAll(Print(RequestJson(r))), REQUEST_MAX_BYTES);
      PayloadReads(RequestJson(r));
      RequestReads(r);
    }
  }

  lemma ResponseRoundTrip(r: Response)
    ensures ResponseFault(r) == None <==> EncodeResponse(r).Ok?
    ensures ResponseFault(r) == None ==>
              |EncodeResponse(r).value| <= FRAME_HEADER_BYTES + RESPONSE_MAX_BYTES && DecodeResponse(EncodeResponse(r).value) == Ok(r)
  {
    hide Print, ResponseJson, ReadResponse, ReadPayload, EncodeAll, EncodeFrame, DecodeFrame;
    if ResponseFault(r) == None {
      ResponseFits(r);
      FrameRoundTrip(EncodeAll(Print(ResponseJson(r))), RESPONSE_MAX_BYTES);
      PayloadReads(ResponseJson(r));
      ResponseReads(r);
    }
  }

  /** Whatever the run produced, its bounded answer can be sent and arrives as it was. */
  lemma BoundedAnswersArrive(runId: string, output: string, limit: nat, rejected: Option<string>, code: Code, message: string)
    requires ValidRunId(runId) && ValidOutputLimit(limit) && (rejected.Some? ==> ValidRunId(rejected.value))
    ensures var c := Response(PROTOCOL_VERSION, Completed(runId, output[..Min(limit, |output|)], limit < |output|));
            && CompletedBounded(runId, output, limit) == Ok(c.kind)
            && EncodeResponse(c).Ok? && DecodeResponse(EncodeResponse(c).value) == Ok(c)
    ensures var x := Response(PROTOCOL_VERSION, Rejected(rejected, code, BoundErrorMessage(message)));
            && RejectedBounded(rejected, code, message) == Ok(x.kind)
            && EncodeResponse(x).Ok? && DecodeResponse(EncodeResponse(x).value) == Ok(x)
  {
    hide EncodeResponse, DecodeResponse, BoundErrorMessage, ValidRunId;
    CompletedValid(runId, output, limit);
    RejectedValid(rejected, code, message);
    ResponseRoundTrip(Response(PROTOCOL_VERSION, CompletedBounded(runId, output, limit).value));
    ResponseRoundTrip(Response(PROTOCOL_VERSION, RejectedBounded(rejected, code, message).value));
  }
}
