/**
  Validation of the canary's fixture inputs and the rendering of its command. What the
  validators let through is exactly what the quoting needs: the filter never refuses it,
  and both the script and the observed command read back.
*/
module CanaryFixtures {
  import opened Common
  import EventStream
  import opened ShellQuoting

  const RUNTIME_CANARY_PROBE_PATH: string := "/bin/webex-codex-canary-probe"
  const RUNTIME_CANARY_HOST_UNIX_FIXTURE_ROOT: string := "/run/webex-codex-canary"
  const RUNTIME_CANARY_HOST_PROTECTED_FIXTURE_ROOT: string := "/var/lib/webex-generic-account-bot/canary-fixtures"
  const RUNTIME_CANARY_FINAL_PREFIX: string := "WEBEX_CODEX_CANARY_OK"

  type Word = n: nat | n < 0x1_0000

  type Octet = n: nat | n < 0x100

  datatype SocketAddr =
    | V4(a: Octet, b: Octet, c: Octet, d: Octet, port: Word)
    | V6(segments: seq<Word>, scope: nat, port: Word)
  {
    predicate Valid() {
      V6? ==> |segments| == 8
    }
  }

  // ----- printing, as the standard library does it -----

  function Hexadecimal(n: nat): string {
    if n < 16 then [HEX_DIGITS[n]] else Hexadecimal(n / 16) + [HEX_DIGITS[n % 16]]
  }

  function PrintV4(a: Octet, b: Octet, c: Octet, d: Octet): string {
    Decimal(a) + "." + Decimal(b) + "." + Decimal(c) + "." + Decimal(d)
  }

  function PrintSegments(segments: seq<Word>): string {
    if segments == [] then ""
    else if |segments| == 1 then Hexadecimal(segments[0])
    else Hexadecimal(segments[0]) + ":" + PrintSegments(segments[1..])
  }

  /** How many zero segments follow from position i on. */
  function ZeroRun(segments: seq<Word>, i: nat): (n: nat)
    requires i <= |segments|
    ensures i + n <= |segments|
    decreases |segments| - i
  {
    if i < |segments| && segments[i] == 0 then 1 + ZeroRun(segments, i + 1) else 0
  }

  /** The first of the longest runs among positions from i on, against the best so far. */
  function LongestRun(segments: seq<Word>, i: nat, best: nat): (start: nat)
    requires i <= |segments| && best <= |segments|
    ensures start <= |segments|
    decreases |segments| - i
  {
    if i == |segments| then best
    else LongestRun(segments, i + 1, if ZeroRun(segments, i) > ZeroRun(segments, best) then i else best)
  }

  predicate MappedV4(segments: seq<Word>)
    requires |segments| == 8
  {
    (forall i | 0 <= i < 5 :: segments[i] == 0) && segments[5] == 0xffff
  }

  function PrintV6(segments: seq<Word>): string
    requires |segments| == 8
  {
    if MappedV4(segments) then
      "::ffff:" + PrintV4(segments[6] / 256, segments[6] % 256, segments[7] / 256, segments[7] % 256)
    else
      var start := LongestRun(segments, 0, 0);
      var run := ZeroRun(segments, start);
      if run > 1 then PrintSegments(segments[..start]) + "::" + PrintSegments(segments[start + run..])
      else PrintSegments(segments)
  }

  function Print(addr: SocketAddr): string
    requires addr.Valid()
  {
    match addr
    case V4(a, b, c, d, port) => PrintV4(a, b, c, d) + ":" + Decimal(port)
    case V6(segments, scope, port) =>
      "[" + PrintV6(segments) + (if scope == 0 then "" else "%" + Decimal(scope)) + "]:" + Decimal(port)
  }

  // ----- the validators -----

  datatype Inputs = Inputs(mainPid: nat, fdSecret: string, forbiddenTcp: string, botTcp: string,
                           hostUnix: string, hostProtected: string)

  predicate ValidNonce(s: string) {
    |s| == 64 && forall i | 0 <= i < |s| :: '0' <= s[i] <= '9' || 'a' <= s[i] <= 'f'
  }

  predicate Loopback(addr: SocketAddr)
    requires addr.Valid()
  {
    match addr
    case V4(a, _, _, _, _) => a == 127
    case V6(segments, _, _) => segments == [0, 0, 0, 0, 0, 0, 0, 1]
  }

  predicate ForbiddenAllowed(addr: SocketAddr)
    requires addr.Valid()
  {
    && !Loopback(addr)
    && match addr
       case V4(a, b, c, d, _) =>
         !(a == b == c == d == 0) && !(224 <= a < 240) && !(a == b == c == d == 255)
       case V6(segments, _, _) =>
         && segments != [0, 0, 0, 0, 0, 0, 0, 0] && segments[0] < 0xff00
         && !((forall i | 0 <= i < 5 :: segments[i] == 0) && segments[5] in {0, 0xffff})
  }

  /** `parse` reads a socket address; a text is canonical when it is what the address prints as. */
  predicate ValidInputs(nonce: string, inputs: Inputs, parse: string -> Option<SocketAddr>) {
    && ValidNonce(nonce) && ValidNonce(inputs.fdSecret)
    && var forbidden, bot := parse(inputs.forbiddenTcp), parse(inputs.botTcp);
       && forbidden.Some? && forbidden.value.Valid() && bot.Some? && bot.value.Valid()
       && 2 <= inputs.mainPid < 0x8000_0000
       && ForbiddenAllowed(forbidden.value) && forbidden.value.port != 0 && inputs.forbiddenTcp == Print(forbidden.value)
       && Loopback(bot.value) && bot.value.port != 0 && inputs.botTcp == Print(bot.value)
       && forbidden.value != bot.value
       && inputs.hostUnix == RUNTIME_CANARY_HOST_UNIX_FIXTURE_ROOT + "/" + nonce + ".sock"
       && inputs.hostProtected == RUNTIME_CANARY_HOST_PROTECTED_FIXTURE_ROOT + "/" + nonce
  }

  datatype Rendered = Rendered(argv: seq<string>, script: string, event: string)

  function ProbeArgv(nonce: string, inputs: Inputs): seq<string> {
    [RUNTIME_CANARY_PROBE_PATH, EventStream.RUNTIME_CANARY_SUITE, "--nonce", nonce, "--main-pid", Decimal(inputs.mainPid),
     "--fd-secret-sha256", inputs.fdSecret, "--forbidden-tcp", inputs.forbiddenTcp, "--bot-tcp", inputs.botTcp,
     "--host-unix", inputs.hostUnix, "--host-protected-path", inputs.hostProtected]
  }

  function Render(nonce: string, inputs: Inputs, parse: string -> Option<SocketAddr>): Option<Rendered> {
    if !ValidInputs(nonce, inputs, parse) then None
    else
      var argv := ProbeArgv(nonce, inputs);
      if exists i | 0 <= i < |argv| :: !PassesFilter(argv[i]) then None
      else Some(Rendered(argv, Script(argv), EventCommand(Script(argv))))
  }

  // ----- everything the validators let through is harmless -----

  predicate SafeChar(c: char) {
    'a' <= c <= 'z' || '0' <= c <= '9' || c in {'-', '.', '/', ':', '[', ']', '%'}
  }

  predicate Safe(s: string) {
    forall i | 0 <= i < |s| :: SafeChar(s[i])
  }

  lemma {:induction false} DecimalSafe(n: nat)
    ensures Safe(Decimal(n))
  {
    if n >= 10 { DecimalSafe(n / 10); }
  }

  lemma {:induction false} HexadecimalSafe(n: nat)
    ensures Safe(Hexadecimal(n))
  {
    if n >= 16 { HexadecimalSafe(n / 16); }
  }

  lemma V4Safe(a: Octet, b: Octet, c: Octet, d: Octet)
    ensures Safe(PrintV4(a, b, c, d))
  {
    DecimalSafe(a);
    DecimalSafe(b);
    DecimalSafe(c);
    DecimalSafe(d);
  }

  lemma {:induction false} SegmentsSafe(segments: seq<Word>)
    ensures Safe(PrintSegments(segments))
  {
    if segments != [] {
      HexadecimalSafe(segments[0]);
      SegmentsSafe(segments[1..]);
    }
  }

  lemma V6Safe(segments: seq<Word>)
    requires |segments| == 8
    ensures Safe(PrintV6(segments))
  {
    if MappedV4(segments) {
      V4Safe(segments[6] / 256, segments[6] % 256, segments[7] / 256, segments[7] % 256);
    } else {
      var start := LongestRun(segments, 0, 0);
      SegmentsSafe(segments);
      SegmentsSafe(segments[..start]);
      SegmentsSafe(segments[start + ZeroRun(segments, start)..]);
    }
  }

  lemma AddressSafe(addr: SocketAddr)
    requires addr.Valid()
    ensures Safe(Print(addr))
  {
    DecimalSafe(addr.port);
    match addr
    case V4(a, b, c, d, _) => V4Safe(a, b, c, d);
    case V6(segments, scope, _) =>
      V6Safe(segments);
      DecimalSafe(scope);
  }

  lemma ProgramSafe()
    ensures Safe(RUNTIME_CANARY_PROBE_PATH) && Safe(EventStream.RUNTIME_CANARY_SUITE) && Safe("--nonce") && Safe("--main-pid")
  {
  }

  lemma OptionsSafe()
    ensures Safe("--fd-secret-sha256") && Safe("--forbidden-tcp") && Safe("--bot-tcp") && Safe("--host-unix")
    ensures Safe("--host-protected-path")
  {
  }

  lemma UnixRootSafe()
    ensures Safe(RUNTIME_CANARY_HOST_UNIX_FIXTURE_ROOT)
  {
  }

  lemma ProtectedPartsSafe()
    ensures Safe("/var/lib/webex-g") && Safe("eneric-account-") && Safe("bot/canary-fixtures")
  {
  }

  lemma ProtectedRootSafe()
    ensures Safe(RUNTIME_CANARY_HOST_PROTECTED_FIXTURE_ROOT)
  {
    hide Safe;
    var a, b, c := "/var/lib/webex-g", "eneric-account-", "bot/canary-fixtures";
    ProtectedPartsSafe();
    SafeConcat(a, b);
    SafeConcat(a + b, c);
    assert RUNTIME_CANARY_HOST_PROTECTED_FIXTURE_ROOT == a + b + c;
  }

  lemma SafeConcat(a: string, b: string)
    requires Safe(a) && Safe(b)
    ensures Safe(a + b)
  {
  }

  lemma PathsSafe(nonce: string)
    requires ValidNonce(nonce)
    ensures Safe(nonce)
    ensures Safe(RUNTIME_CANARY_HOST_UNIX_FIXTURE_ROOT + "/" + nonce + ".sock")
    ensures Safe(RUNTIME_CANARY_HOST_PROTECTED_FIXTURE_ROOT + "/" + nonce)
  {
    UnixRootSafe();
    ProtectedRootSafe();
    assert Safe("/") && Safe(".sock") && Safe(nonce);
    hide Safe;
    SafeConcat(RUNTIME_CANARY_HOST_UNIX_FIXTURE_ROOT, "/");
    SafeConcat(RUNTIME_CANARY_HOST_UNIX_FIXTURE_ROOT + "/", nonce);
    SafeConcat(RUNTIME_CANARY_HOST_UNIX_FIXTURE_ROOT + "/" + nonce, ".sock");
    SafeConcat(RUNTIME_CANARY_HOST_PROTECTED_FIXTURE_ROOT, "/");
    SafeConcat(RUNTIME_CANARY_HOST_PROTECTED_FIXTURE_ROOT + "/", nonce);
  }

  lemma ArgvSafe(nonce: string, inputs: Inputs, parse: string -> Option<SocketAddr>)
    requires ValidInputs(nonce, inputs, parse)
    ensures forall i | 0 <= i < |ProbeArgv(nonce, inputs)| :: Safe(ProbeArgv(nonce, inputs)[i])
  {
    hide Print, Decimal, Safe, ForbiddenAllowed, Loopback;
    ProgramSafe();
    OptionsSafe();
    PathsSafe(nonce);
    PathsSafe(inputs.fdSecret);
    AddressSafe(parse(inputs.forbiddenTcp).value);
    AddressSafe(parse(inputs.botTcp).value);
    DecimalSafe(inputs.mainPid);
  }

  lemma SafePasses(s: string)
    requires Safe(s)
    ensures PassesFilter(s) && '\'' !in s
  {
  }

  lemma {:induction false} JoinedWithoutQuote(argv: seq<string>)
    requires forall i | 0 <= i < |argv| :: Safe(argv[i])
    ensures '\'' !in JoinQuoted(argv)
  {
    if argv != [] {
      SafePasses(argv[0]);
      JoinedWithoutQuote(argv[1..]);
    }
  }

  /**
    For all inputs the validators accept there is a rendered command, its script reads back
    as `exec` and the arguments, and the observed command reads back as that script.
  */
  lemma RenderedReadsBack(nonce: string, inputs: Inputs, parse: string -> Option<SocketAddr>)
    ensures ValidInputs(nonce, inputs, parse) <==> Render(nonce, inputs, parse).Some?
    ensures ValidInputs(nonce, inputs, parse) ==>
              var r := Render(nonce, inputs, parse).value;
              && r.argv == ProbeArgv(nonce, inputs)
              && Words(r.script) == Some(["exec"] + r.argv)
              && Words(r.event) == Some(["/bin/sh", "-c", r.script])
  {
    hide ValidInputs, ProbeArgv, Words, JoinQuoted;
    if ValidInputs(nonce, inputs, parse) {
      var argv := ProbeArgv(nonce, inputs);
      ArgvSafe(nonce, inputs, parse);
      forall i | 0 <= i < |argv| ensures PassesFilter(argv[i]) { SafePasses(argv[i]); }
      ArgvNonempty(nonce, inputs);
      ScriptReadsBack(argv);
      JoinedWithoutQuote(argv);
      EventReadsBackExactly(Script(argv));
    }
  }

  lemma ArgvNonempty(nonce: string, inputs: Inputs)
    ensures ProbeArgv(nonce, inputs) != []
  {
  }

  // ----- the whole acceptance -----

  /** What a stream is checked against: the command that was rendered and the line bound to the inputs. */
  function CanaryContext(nonce: string, inputs: Inputs, binding: string, decodeReport: string -> Option<EventStream.RawReport>)
    : EventStream.Context
  {
    EventStream.Context(nonce, binding, EventCommand(Script(ProbeArgv(nonce, inputs))),
                        RUNTIME_CANARY_FINAL_PREFIX + " " + nonce + " " + binding, decodeReport)
  }

  /** A stream is accepted exactly when the inputs are valid and it fits the grammar for the command they render to. */
  method ParseCanaryStream(input: string, nonce: string, inputs: Inputs, parse: string -> Option<SocketAddr>,
                           bind: (string, Inputs) -> string, decode: EventStream.Decoder,
                           decodeReport: string -> Option<EventStream.RawReport>)
    returns (r: Option<EventStream.Report>)
    ensures forall report :: r == Some(report) <==>
              && ValidInputs(nonce, inputs, parse)
              && EventStream.AcceptableInput(input, decode, CanaryContext(nonce, inputs, bind(nonce, inputs), decodeReport), report)
  {
    hide ValidInputs, ProbeArgv, EventStream.AcceptableInput;
    RenderedReadsBack(nonce, inputs, parse);
    var rendered := Render(nonce, inputs, parse);
    if rendered == None { return None; }
    var binding := bind(nonce, inputs);
    var ctx := EventStream.Context(nonce, binding, rendered.value.event,
                                   RUNTIME_CANARY_FINAL_PREFIX + " " + nonce + " " + binding, decodeReport);
    r := EventStream.ParseStream(input, decode, ctx);
  }
}
