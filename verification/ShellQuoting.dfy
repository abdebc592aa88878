/**
  The command of the canary run: fixture inputs are validated, quoted into a POSIX shell
  script, and the script is quoted again into the command that the event stream must show.
  Both are read back here with the quoting rules of section 2.2 of the POSIX Shell Command
  Language.
*/
module ShellQuoting {
  import opened Common

  // ----- reading -----

  datatype Mode = Plain | DoubleQuoted | SingleQuoted

  const OPERATORS_AND_EXPANSIONS: set<char> := {'\n', '|', '&', ';', '<', '>', '(', ')', '$', '`', '*', '?', '[', '#', '~'}

  function Add(word: Option<string>, c: char): Option<string> {
    if word.Some? then Some(word.value + [c]) else Some([c])
  }

  function Begin(word: Option<string>): Option<string> {
    if word.Some? then word else Some("")
  }

  function Finish(words: seq<string>, word: Option<string>): seq<string> {
    if word.Some? then words + [word.value] else words
  }

  /**
    The words of a text, its quotes removed; nothing when the text has an operator or an
    expansion in it, or a quotation that does not end.
  */
  function Read(s: string, mode: Mode, word: Option<string>, words: seq<string>): Option<seq<string>>
    decreases |s|
  {
    if s == "" then if mode.Plain? then Some(Finish(words, word)) else None
    else
      var c, rest := s[0], s[1..];
      match mode
      case SingleQuoted =>
        if c == '\'' then Read(rest, Plain, word, words) else Read(rest, SingleQuoted, Add(word, c), words)
      case DoubleQuoted =>
        if c == '"' then Read(rest, Plain, word, words)
        else if c == '$' || c == '`' then None
        else if c == '\\' && rest != "" && rest[0] == '\n' then Read(rest[1..], DoubleQuoted, word, words)
        else if c == '\\' && rest != "" && rest[0] in {'$', '`', '"', '\\'} then Read(rest[1..], DoubleQuoted, Add(word, rest[0]), words)
        else Read(rest, DoubleQuoted, Add(word, c), words)
      case Plain =>
        if c == ' ' || c == '\t' then Read(rest, Plain, None, Finish(words, word))
        else if c == '\'' then Read(rest, SingleQuoted, Begin(word), words)
        else if c == '"' then Read(rest, DoubleQuoted, Begin(word), words)
        else if c == '\\' then
          if rest == "" then None
          else Read(rest[1..], Plain, if rest[0] == '\n' then word else Add(word, rest[0]), words)
        else if c in OPERATORS_AND_EXPANSIONS then None
        else Read(rest, Plain, Add(word, c), words)
  }

  function Words(s: string): Option<seq<string>> {
    Read(s, Plain, None, [])
  }

  // ----- writing -----

  const RUNTIME_CANARY_SHELL_PATH: string := "/bin/sh"

  /** The filter of the renderer; it says nothing about single quotes. */
  predicate PassesFilter(arg: string) {
    forall i | 0 <= i < |arg| :: arg[i] !in {'"', '$', '`', '\\', '\r', '\n'}
  }

  function Quote(arg: string): string {
    "\"" + arg + "\""
  }

  function JoinQuoted(argv: seq<string>): string {
    if argv == [] then ""
    else if |argv| == 1 then Quote(argv[0])
    else Quote(argv[0]) + " " + JoinQuoted(argv[1..])
  }

  function Script(argv: seq<string>): string {
    "exec " + JoinQuoted(argv)
  }

  function EventCommand(script: string): string {
    RUNTIME_CANARY_SHELL_PATH + " -c '" + script + "'"
  }

  // ----- the script reads back -----

  function Extend(word: Option<string>, s: string): Option<string> {
    if word.Some? then Some(word.value + s) else if s == "" then None else Some(s)
  }

  predicate Ordinary(s: string) {
    forall i | 0 <= i < |s| :: s[i] !in {' ', '\t', '\'', '"', '\\'} && s[i] !in OPERATORS_AND_EXPANSIONS
  }

  lemma {:induction false} ReadOrdinary(s: string, rest: string, word: Option<string>, words: seq<string>)
    requires Ordinary(s)
    ensures Read(s + rest, Plain, word, words) == Read(rest, Plain, Extend(word, s), words)
  {
    if s == "" {
      assert s + rest == rest;
      assert word.Some? ==> word.value + s == word.value;
    } else {
      assert (s + rest)[0] == s[0] && (s + rest)[1..] == s[1..] + rest;
      ReadOrdinary(s[1..], rest, Add(word, s[0]), words);
      assert s == [s[0]] + s[1..];
      assert word.Some? ==> word.value + [s[0]] + s[1..] == word.value + s;
    }
  }

  lemma ReadBlank(rest: string, word: Option<string>, words: seq<string>)
    ensures Read(" " + rest, Plain, word, words) == Read(rest, Plain, None, Finish(words, word))
  {
    assert (" " + rest)[0] == ' ' && (" " + rest)[1..] == rest;
  }

  /** An ordinary word and the blank after it. */
  lemma ReadWord(s: string, rest: string, words: seq<string>)
    requires Ordinary(s) && s != ""
    ensures Read(s + (" " + rest), Plain, None, words) == Read(rest, Plain, None, words + [s])
  {
    hide Read;
    ReadOrdinary(s, " " + rest, None, words);
    ReadBlank(rest, Some(s), words);
  }

  lemma {:induction false} ReadDouble(arg: string, rest: string, word: string, words: seq<string>)
    requires PassesFilter(arg)
    ensures Read(arg + "\"" + rest, DoubleQuoted, Some(word), words) == Read(rest, Plain, Some(word + arg), words)
  {
    var s := arg + "\"" + rest;
    if arg == "" {
      assert s[0] == '"' && s[1..] == rest && word + arg == word;
    } else {
      assert s[0] == arg[0] && s[1..] == arg[1..] + "\"" + rest;
      ReadDouble(arg[1..], rest, word + [arg[0]], words);
      assert word + [arg[0]] + arg[1..] == word + arg;
    }
  }

  lemma ReadQuoted(arg: string, rest: string, words: seq<string>)
    requires PassesFilter(arg)
    ensures Read(Quote(arg) + rest, Plain, None, words) == Read(rest, Plain, Some(arg), words)
  {
    var s := Quote(arg) + rest;
    assert s[0] == '"' && s[1..] == arg + "\"" + rest;
    ReadDouble(arg, rest, "", words);
    assert "" + arg == arg;
  }

  lemma {:induction false} ReadJoined(argv: seq<string>, words: seq<string>)
    requires argv != [] && forall i | 0 <= i < |argv| :: PassesFilter(argv[i])
    ensures Read(JoinQuoted(argv), Plain, None, words) == Some(words + argv)
  {
    hide Read;
    var first, others := argv[0], argv[1..];
    assert argv == [first] + others;
    if |argv| == 1 {
      assert JoinQuoted(argv) == Quote(first) + "";
      ReadQuoted(first, "", words);
      ReadEnd(Some(first), words);
      assert argv == [first];
    } else {
      hide JoinQuoted, Quote;
      JoinQuotedCons(argv);
      ReadQuoted(first, " " + JoinQuoted(others), words);
      ReadBlank(JoinQuoted(others), Some(first), words);
      ReadJoined(others, words + [first]);
      assert words + [first] + others == words + argv;
    }
  }

  lemma JoinQuotedCons(argv: seq<string>)
    requires |argv| > 1
    ensures JoinQuoted(argv) == Quote(argv[0]) + (" " + JoinQuoted(argv[1..]))
  {
  }

  lemma ReadEnd(word: Option<string>, words: seq<string>)
    ensures Read("", Plain, word, words) == Some(Finish(words, word))
  {
  }

  /** Whatever passes the filter is read back word for word. */
  lemma ScriptReadsBack(argv: seq<string>)
    requires argv != [] && forall i | 0 <= i < |argv| :: PassesFilter(argv[i])
    ensures Words(Script(argv)) == Some(["exec"] + argv)
  {
    hide Read, JoinQuoted;
    assert Script(argv) == "exec" + (" " + JoinQuoted(argv));
    ReadWord("exec", JoinQuoted(argv), []);
    ReadJoined(argv, ["exec"]);
    assert [] + ["exec"] == ["exec"];
  }

  // ----- the event command reads back exactly without single quotes -----

  lemma {:induction false} ReadSingle(s: string, rest: string, word: string, words: seq<string>)
    requires '\'' !in s
    ensures Read(s + "'" + rest, SingleQuoted, Some(word), words) == Read(rest, Plain, Some(word + s), words)
  {
    var t := s + "'" + rest;
    if s == "" {
      assert t[0] == '\'' && t[1..] == rest && word + s == word;
    } else {
      assert t[0] == s[0] && t[1..] == s[1..] + "'" + rest;
      ReadSingle(s[1..], rest, word + [s[0]], words);
      assert word + [s[0]] + s[1..] == word + s;
    }
  }

  function Length(words: seq<string>): nat {
    if words == [] then 0 else Length(words[..|words| - 1]) + |words[|words| - 1]|
  }

  function Pending(word: Option<string>): nat {
    if word.Some? then |word.value| else 0
  }

  lemma FinishLength(words: seq<string>, word: Option<string>)
    ensures Length(Finish(words, word)) == Length(words) + Pending(word)
  {
    if word.Some? { assert (words + [word.value])[..|words|] == words; }
  }

  /** Reading never makes text longer, and every single quote met outside quotes costs something. */
  lemma {:induction false} ReadLoses(s: string, mode: Mode, word: Option<string>, words: seq<string>)
    requires Read(s, mode, word, words).Some?
    ensures Length(Read(s, mode, word, words).value) <= Length(words) + Pending(word) + |s|
    ensures mode.Plain? && s != "" && s[|s| - 1] == '\'' ==>
              Length(Read(s, mode, word, words).value) < Length(words) + Pending(word) + |s|
    decreases |s|
  {
    FinishLength(words, word);
    if s != "" {
      var c, rest := s[0], s[1..];
      if mode.SingleQuoted? {
        if c == '\'' { ReadLoses(rest, Plain, word, words); } else { ReadLoses(rest, SingleQuoted, Add(word, c), words); }
      } else if mode.DoubleQuoted? {
        if c == '"' { ReadLoses(rest, Plain, word, words); }
        else if c == '\\' && rest != "" && rest[0] == '\n' { ReadLoses(rest[1..], DoubleQuoted, word, words); }
        else if c == '\\' && rest != "" && rest[0] in {'$', '`', '"', '\\'} { ReadLoses(rest[1..], DoubleQuoted, Add(word, rest[0]), words); }
        else { ReadLoses(rest, DoubleQuoted, Add(word, c), words); }
      } else {
        if c == ' ' || c == '\t' { ReadLoses(rest, Plain, None, Finish(words, word)); }
        else if c == '\'' { ReadLoses(rest, SingleQuoted, Begin(word), words); }
        else if c == '"' { ReadLoses(rest, DoubleQuoted, Begin(word), words); }
        else if c == '\\' { ReadLoses(rest[1..], Plain, if rest[0] == '\n' then word else Add(word, rest[0]), words); }
        else { ReadLoses(rest, Plain, Add(word, c), words); }
      }
    }
  }

  function FirstQuote(s: string): (k: nat)
    ensures k <= |s| && '\'' !in s[..k] && (k < |s| ==> s[k] == '\'') && (k == |s| ==> '\'' !in s)
  {
    if s == "" || s[0] == '\'' then 0 else 1 + FirstQuote(s[1..])
  }

  lemma EventReadsAs(script: string)
    ensures Words(EventCommand(script)) == Read(script + "'", SingleQuoted, Some(""), ["/bin/sh", "-c"])
  {
    hide Read;
    var tail := script + "'";
    assert EventCommand(script) == "/bin/sh" + (" " + ("-c" + (" " + ("'" + tail))));
    ReadWord("/bin/sh", "-c" + (" " + ("'" + tail)), []);
    ReadWord("-c", "'" + tail, [] + ["/bin/sh"]);
    ReadOpenSingle(tail, [] + ["/bin/sh"] + ["-c"]);
    assert [] + ["/bin/sh"] + ["-c"] == ["/bin/sh", "-c"];
  }

  lemma ReadOpenSingle(rest: string, words: seq<string>)
    ensures Read("'" + rest, Plain, None, words) == Read(rest, SingleQuoted, Some(""), words)
  {
    assert ("'" + rest)[0] == '\'' && ("'" + rest)[1..] == rest;
  }

  /** The exact condition under which the observed command stands for the script. */
  lemma EventReadsBackExactly(script: string)
    ensures Words(EventCommand(script)) == Some(["/bin/sh", "-c", script]) <==> '\'' !in script
  {
    EventReadsAs(script);
    var words := ["/bin/sh", "-c"];
    var k := FirstQuote(script);
    if k == |script| {
      assert script + "'" + "" == script + "'";
      ReadSingle(script, "", "", words);
      assert "" + script == script && words + [script] == ["/bin/sh", "-c", script];
    } else {
      var head, rest := script[..k], script[k + 1..] + "'";
      assert script + "'" == head + "'" + rest;
      ReadSingle(head, rest, "", words);
      assert "" + head == head;
      if Words(EventCommand(script)) == Some(["/bin/sh", "-c", script]) {
        FinishLength(words, Some(script));
        assert words + [script] == ["/bin/sh", "-c", script];
        ReadLoses(rest, Plain, Some(head), words);
      }
    }
  }

  /** Passing the filter is not enough: an argument with a single quote in it. */
  lemma FilterAloneIsNotEnough()
    ensures exists arg :: PassesFilter(arg) && Words(Script([arg])) == Some(["exec", arg])
                          && Words(EventCommand(Script([arg]))) != Some(["/bin/sh", "-c", Script([arg])])
  {
    var arg := "it's";
    assert PassesFilter(arg);
    ScriptReadsBack([arg]);
    assert ["exec"] + [arg] == ["exec", arg];
    assert Script([arg])[8] == '\'';
    EventReadsBackExactly(Script([arg]));
  }
}
