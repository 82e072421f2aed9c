/** The command line that the Kubernetes runtime hands to `sh -c`, and how a shell reads it back. */
module ShellCommand {
  import opened Strings

  // ---------------------------------------------------------------- printing

  /** `value.replace("'", "'\"'\"'")`. */
  function Escape(value: string): string {
    if value == "" then ""
    else (if value[0] == '\'' then "'\"'\"'" else [value[0]]) + Escape(value[1..])
  }

  /** `_shell_quote`. */
  function Quote(value: string): string {
    "'" + Escape(value) + "'"
  }

  function Exports(environment: seq<(string, string)>): seq<string> {
    if environment == [] then []
    else [environment[0].0 + "=" + Quote(environment[0].1)] + Exports(environment[1..])
  }

  function Quoted(words: seq<string>): seq<string> {
    if words == [] then [] else [Quote(words[0])] + Quoted(words[1..])
  }

  /** The rendered script: change directory, then run the command under `env`. */
  function Render(directory: string, environment: seq<(string, string)>, command: seq<string>): string {
    "cd " + Quote(directory) + " && env " + Join(Exports(environment), ' ') + " " + Join(Quoted(command), ' ')
  }

  /** The argument vector that `exec` sends to the pod. An empty working directory counts as none. */
  function PodCommand(command: seq<string>, environment: seq<(string, string)>, workdir: string,
                      configured: string): seq<string> {
    if environment != [] || workdir != "" then
      ["sh", "-c", Render(if workdir != "" then workdir else configured, environment, command)]
    else command
  }

  // ---------------------------------------------------------------- reading

  datatype Token = Word(text: string) | AndIf

  datatype Mode = Between | InWord(word: string) | InSingle(word: string) | InDouble(word: string)

  predicate Blank(c: char) {
    c == ' ' || c == '\t'
  }

  /** Characters that mean themselves outside quotes, in any position of a word. */
  predicate Ordinary(c: char) {
    'a' <= c <= 'z' || 'A' <= c <= 'Z' || '0' <= c <= '9' || c == '_' || c == '=' || c == '-'
    || c == '/' || c == '.' || c == ',' || c == ':' || c == '+' || c == '@' || c == '%'
  }

  function Emit(tokens: seq<Token>, rest: Option<seq<Token>>): Option<seq<Token>> {
    match rest
    case None => None
    case Some(more) => Some(tokens + more)
  }

  /** Token recognition and quote removal of the POSIX.1-2017 Shell Command Language, sections
    * 2.2.2, 2.2.3 and 2.3, on scripts without expansions: None for an unterminated quote and for
    * every character that the shell would give a further meaning to. */
  function Scan(script: string, mode: Mode): Option<seq<Token>>
    decreases |script|
  {
    if script == "" then
      match mode
      case Between => Some([])
      case InWord(word) => Some([Word(word)])
      case _ => None
    else
      var c, rest := script[0], script[1..];
      match mode
      case Between =>
        if Blank(c) then Scan(rest, Between)
        else if c == '&' then (if rest != "" && rest[0] == '&' then Emit([AndIf], Scan(rest[1..], Between)) else None)
        else if c == '\'' then Scan(rest, InSingle(""))
        else if c == '"' then Scan(rest, InDouble(""))
        else if Ordinary(c) then Scan(rest, InWord([c]))
        else None
      case InWord(word) =>
        if Blank(c) then Emit([Word(word)], Scan(rest, Between))
        else if c == '&' then
          (if rest != "" && rest[0] == '&' then Emit([Word(word), AndIf], Scan(rest[1..], Between)) else None)
        else if c == '\'' then Scan(rest, InSingle(word))
        else if c == '"' then Scan(rest, InDouble(word))
        else if Ordinary(c) then Scan(rest, InWord(word + [c]))
        else None
      case InSingle(word) =>
        if c == '\'' then Scan(rest, InWord(word)) else Scan(rest, InSingle(word + [c]))
      case InDouble(word) =>
        if c == '"' then Scan(rest, InWord(word))
        else if c == '$' || c == '`' || c == '\\' then None
        else Scan(rest, InDouble(word + [c]))
  }

  function Tokenize(script: string): Option<seq<Token>> {
    Scan(script, Between)
  }

  /** ASCII letters, digits and the underscore, by their codes. */
  predicate WordCharacter(c: char) {
    c == '_' || 0x30 <= c as int <= 0x39 || 0x41 <= c as int <= 0x5A || 0x61 <= c as int <= 0x7A
  }

  lemma CharacterClasses(c: char)
    ensures Ordinary(c) <==> WordCharacter(c) || c in "=-/.,:+@%"
    ensures Blank(c) <==> c in " \t"
  {
  }

  /** Nothing that a shell would give a further meaning to is read as text: outside quotes no character
    * but the ordinary ones, blanks, quotes and `&&`; in double quotes no expansion and no escape; and no
    * quote without its end. */
  lemma FurtherMeaningsAreRefused(c: char, rest: string, mode: Mode)
    ensures (mode.Between? || mode.InWord?) && !Ordinary(c) && !Blank(c) && c !in "&'\"" ==>
      Scan([c] + rest, mode) == None
    ensures (mode.Between? || mode.InWord?) && !("&" <= rest) ==> Scan("&" + rest, mode) == None
    ensures mode.InDouble? && c in "$`\\" ==> Scan([c] + rest, mode) == None
    ensures mode.InSingle? || mode.InDouble? ==> Scan("", mode) == None
    ensures mode.Between? || mode.InWord? ==> Scan("\"" + rest, mode) == Scan(rest, InDouble(WordSoFar(mode)))
    ensures mode.InWord? ==> Scan("&&" + rest, mode) == Emit([Word(mode.word), AndIf], Scan(rest, Between))
  {
    assert ("&" + rest)[1..] == rest;
    assert ("&&" + rest)[1..] == "&" + rest && ("\"" + rest)[1..] == rest;
  }

  function Words(texts: seq<string>): seq<Token> {
    seq(|texts|, i requires 0 <= i < |texts| => Word(texts[i]))
  }

  function Assignments(environment: seq<(string, string)>): seq<string> {
    seq(|environment|, i requires 0 <= i < |environment| => environment[i].0 + "=" + environment[i].1)
  }

  // ---------------------------------------------------------------- the round trip

  lemma {:induction false} ScanEscaped(value: string, rest: string, word: string)
    ensures Scan(Escape(value) + "'" + rest, InSingle(word)) == Scan(rest, InWord(word + value))
  {
    var script := Escape(value) + "'" + rest;
    if value == "" {
      assert script[1..] == rest && word + value == word;
    } else {
      var tail := Escape(value[1..]) + "'" + rest;
      ScanEscaped(value[1..], rest, word + [value[0]]);
      assert word + [value[0]] + value[1..] == word + value;
      if value[0] == '\'' {
        assert script == "'\"'\"'" + tail;
        ScanEmbeddedQuote(tail, word);
      } else {
        assert script == [value[0]] + tail;
        assert script[1..] == tail;
      }
    }
  }

  /** Closing the quotes, a double-quoted quote, and opening them again adds one quote. */
  lemma ScanEmbeddedQuote(tail: string, word: string)
    ensures Scan("'\"'\"'" + tail, InSingle(word)) == Scan(tail, InSingle(word + ['\'']))
  {
    var s0 := "'\"'\"'" + tail;
    var s1, s2, s3, s4 := s0[1..], s0[2..], s0[3..], s0[4..];
    assert s1[1..] == s2 && s2[1..] == s3 && s3[1..] == s4 && s4[1..] == tail;
    assert Scan(s0, InSingle(word)) == Scan(s1, InWord(word));
    assert Scan(s1, InWord(word)) == Scan(s2, InDouble(word));
    assert Scan(s2, InDouble(word)) == Scan(s3, InDouble(word + ['\'']));
    assert Scan(s3, InDouble(word + ['\''])) == Scan(s4, InWord(word + ['\'']));
  }

  function WordSoFar(mode: Mode): string {
    if mode.Between? then "" else mode.word
  }

  /** A quoted value, at the start of a word or inside one, adds exactly the value. */
  lemma ScanQuoted(value: string, rest: string, mode: Mode)
    requires mode.Between? || mode.InWord?
    ensures Scan(Quote(value) + rest, mode) == Scan(rest, InWord(WordSoFar(mode) + value))
  {
    var script := Quote(value) + rest;
    assert script[1..] == Escape(value) + "'" + rest;
    ScanEscaped(value, rest, WordSoFar(mode));
  }

  lemma {:induction false} ScanOrdinary(text: string, rest: string, mode: Mode)
    requires (mode.Between? && text != "") || mode.InWord?
    requires forall i :: 0 <= i < |text| ==> Ordinary(text[i])
    ensures Scan(text + rest, mode) == Scan(rest, InWord(WordSoFar(mode) + text))
    decreases |text|
  {
    if text == "" {
      assert text + rest == rest && WordSoFar(mode) + text == WordSoFar(mode);
    } else {
      assert (text + rest)[1..] == text[1..] + rest;
      ScanOrdinary(text[1..], rest, InWord(WordSoFar(mode) + [text[0]]));
      assert WordSoFar(mode) + [text[0]] + text[1..] == WordSoFar(mode) + text;
      assert "" + [text[0]] == [text[0]];
    }
  }

  lemma ScanBlank(word: string, rest: string)
    ensures Scan(" " + rest, InWord(word)) == Emit([Word(word)], Scan(rest, Between))
  {
    assert (" " + rest)[1..] == rest;
  }

  lemma ScanLeadingBlank(rest: string)
    ensures Scan(" " + rest, Between) == Scan(rest, Between)
  {
    assert (" " + rest)[1..] == rest;
  }

  lemma {:induction false} ScanArguments(command: seq<string>)
    ensures Scan(Join(Quoted(command), ' '), Between) == Some(Words(command))
  {
    if command == [] {
      assert Words(command) == [];
    } else {
      var tail := Join(Quoted(command[1..]), ' ');
      var word := command[0];
      assert Quoted(command) == [Quote(word)] + Quoted(command[1..]);
      assert Words(command) == [Word(word)] + Words(command[1..]);
      assert "" + word == word;
      if |command| == 1 {
        assert Quoted(command[1..]) == [] && Words(command[1..]) == [];
        assert Join(Quoted(command), ' ') == Quote(word) + "";
        ScanQuoted(word, "", Between);
        assert [Word(word)] + [] == [Word(word)];
      } else {
        ScanArguments(command[1..]);
        JoinConcat([Quote(word)], Quoted(command[1..]), ' ');
        assert Join(Quoted(command), ' ') == Quote(word) + (" " + tail);
        ScanQuoted(word, " " + tail, Between);
        ScanBlank(word, tail);
      }
    }
  }

  /** Blank-separated exports, then a blank, then the rest of the script. */
  lemma {:induction false} ScanExports(environment: seq<(string, string)>, rest: string)
    requires forall i, j :: 0 <= i < |environment| && 0 <= j < |environment[i].0| ==> Ordinary(environment[i].0[j])
    ensures Scan(Join(Exports(environment), ' ') + " " + rest, Between)
         == Emit(Words(Assignments(environment)), Scan(rest, Between))
  {
    hide Scan, Ordinary;
    if environment == [] {
      ScanLeadingBlank(rest);
      assert Join(Exports(environment), ' ') + " " + rest == " " + rest;
      assert Words(Assignments(environment)) == [];
      assert Scan(rest, Between).Some? ==> [] + Scan(rest, Between).value == Scan(rest, Between).value;
    } else {
      var (key, value) := environment[0];
      var others := environment[1..];
      var word := key + "=" + value;
      assert Exports(environment) == [key + "=" + Quote(value)] + Exports(others);
      assert Words(Assignments(environment)) == [Word(word)] + Words(Assignments(others));
      assert forall j :: 0 <= j < |key| ==> key[j] == environment[0].0[j];
      if others == [] {
        assert Exports(others) == [] && Words(Assignments(others)) == [];
        assert [Word(word)] + [] == [Word(word)];
        ScanExport(key, value, rest);
        assert Join(Exports(environment), ' ') + " " + rest == key + "=" + Quote(value) + (" " + rest);
      } else {
        var tail := Join(Exports(others), ' ') + " " + rest;
        assert forall i, j :: 0 <= i < |others| && 0 <= j < |others[i].0| ==> others[i].0[j] == environment[i + 1].0[j];
        ScanExports(others, rest);
        ScanExport(key, value, tail);
        JoinConcat([key + "=" + Quote(value)], Exports(others), ' ');
        assert Join(Exports(environment), ' ') + " " + rest == key + "=" + Quote(value) + (" " + tail);
        EmitTwice([Word(word)], Words(Assignments(others)), Scan(rest, Between));
      }
    }
  }

  lemma {:induction false} ScanExport(key: string, value: string, rest: string)
    requires forall j :: 0 <= j < |key| ==> Ordinary(key[j])
    ensures Scan(key + "=" + Quote(value) + (" " + rest), Between)
         == Emit([Word(key + "=" + value)], Scan(rest, Between))
  {
    hide Scan;
    var after := Quote(value) + (" " + rest);
    assert key + "=" + Quote(value) + (" " + rest) == (key + "=") + after;
    ScanOrdinary(key + "=", after, Between);
    assert "" + (key + "=") == key + "=";
    ScanQuoted(value, " " + rest, InWord(key + "="));
    ScanBlank(key + "=" + value, rest);
  }

  lemma EmitTwice(first: seq<Token>, second: seq<Token>, rest: Option<seq<Token>>)
    ensures Emit(first, Emit(second, rest)) == Emit(first + second, rest)
  {
    if rest.Some? {
      assert first + (second + rest.value) == first + second + rest.value;
    }
  }

  /** What the shell sees for a directory, an environment and an argument vector. */
  function Intended(directory: string, environment: seq<(string, string)>, command: seq<string>): seq<Token> {
    [Word("cd"), Word(directory), AndIf, Word("env")] + (Words(Assignments(environment)) + Words(command))
  }

  /** A shell reads the rendered script as exactly the intended words, whatever the directory, the
    * values and the arguments hold, for keys of ordinary characters. */
  lemma RenderedScriptReadsBack(directory: string, environment: seq<(string, string)>, command: seq<string>)
    requires forall i, j :: 0 <= i < |environment| && 0 <= j < |environment[i].0| ==> Ordinary(environment[i].0[j])
    ensures Tokenize(Render(directory, environment, command)) == Some(Intended(directory, environment, command))
  {
    hide Scan, Ordinary;
    var arguments := Join(Quoted(command), ' ');
    var body := Join(Exports(environment), ' ') + " " + arguments;
    ScanArguments(command);
    ScanExports(environment, arguments);
    var operands := Words(Assignments(environment)) + Words(command);
    assert Scan(body, Between) == Some(operands);
    ScanPreamble(directory, body);
    assert Render(directory, environment, command) == "cd " + (Quote(directory) + (" && env " + body));
    EmitTwice([Word("cd"), Word(directory), AndIf], [Word("env")], Some(operands));
    assert [Word("cd"), Word(directory), AndIf] + [Word("env")] == [Word("cd"), Word(directory), AndIf, Word("env")];
  }

  lemma ScanPreamble(directory: string, body: string)
    ensures Scan("cd " + (Quote(directory) + (" && env " + body)), Between)
         == Emit([Word("cd"), Word(directory), AndIf], Emit([Word("env")], Scan(body, Between)))
  {
    hide Scan;
    var end := Emit([Word("env")], Scan(body, Between));
    var script := Quote(directory) + (" && env " + body);
    ScanWord("cd", script);
    assert "cd " + script == "cd" + (" " + script);
    ScanQuoted(directory, " && env " + body, Between);
    assert "" + directory == directory;
    assert " && env " + body == " " + ("&& env " + body);
    ScanBlank(directory, "&& env " + body);
    ScanAnd(body);
    EmitTwice([Word(directory)], [AndIf], end);
    EmitTwice([Word("cd")], [Word(directory), AndIf], end);
    assert [Word(directory)] + [AndIf] == [Word(directory), AndIf];
    assert [Word("cd")] + [Word(directory), AndIf] == [Word("cd"), Word(directory), AndIf];
  }

  lemma ScanWord(word: string, rest: string)
    requires word != "" && forall i :: 0 <= i < |word| ==> Ordinary(word[i])
    ensures Scan(word + (" " + rest), Between) == Emit([Word(word)], Scan(rest, Between))
  {
    hide Scan;
    ScanOrdinary(word, " " + rest, Between);
    assert "" + word == word;
    ScanBlank(word, rest);
  }

  lemma ScanAnd(body: string)
    ensures Scan("&& env " + body, Between) == Emit([AndIf], Emit([Word("env")], Scan(body, Between)))
  {
    var script := "env" + (" " + body);
    assert "&& env " + body == "&& " + script;
    assert ("&& " + script)[1..] == "& " + script && ("& " + script)[1..] == " " + script;
    assert (" " + script)[1..] == script;
    ScanWord("env", body);
  }

  /** The names that the shell accepts as variables are made of ordinary characters without `=`. */
  predicate ShellName(key: string) {
    && key != "" && !('0' <= key[0] <= '9')
    && forall i :: 0 <= i < |key| ==>
          'a' <= key[i] <= 'z' || 'A' <= key[i] <= 'Z' || '0' <= key[i] <= '9' || key[i] == '_'
  }

  lemma ShellNameExactly(key: string)
    ensures ShellName(key)
       <==> key != "" && !(0x30 <= key[0] as int <= 0x39) && forall i :: 0 <= i < |key| ==> WordCharacter(key[i])
  {
  }

  /** What `exec` sends to the pod: the command itself, or a script that a shell reads as a change to
    * the directory and then `env` with each variable and the unchanged command. */
  lemma PodCommandReadsBack(command: seq<string>, environment: seq<(string, string)>, workdir: string,
                            configured: string)
    requires forall i :: 0 <= i < |environment| ==> ShellName(environment[i].0)
    ensures var argv := PodCommand(command, environment, workdir, configured);
      if environment == [] && workdir == "" then argv == command
      else
        && |argv| == 3 && argv[..2] == ["sh", "-c"]
        && Tokenize(argv[2]) == Some(Intended(if workdir != "" then workdir else configured, environment, command))
  {
    hide Render, Tokenize, Intended;
    forall i, j | 0 <= i < |environment| && 0 <= j < |environment[i].0| ensures Ordinary(environment[i].0[j]) {
      assert ShellName(environment[i].0);
    }
    RenderedScriptReadsBack(if workdir != "" then workdir else configured, environment, command);
  }

  // ---------------------------------------------------------------- what env then runs

  datatype EnvCall = Runs(assignments: seq<string>, command: seq<string>) | ReadsOption

  /** How `env` reads its operands: a leading dash is an option, words with `=` are assignments up
    * to the first word without one, and what is left is the command. */
  function EnvOperands(operands: seq<string>): EnvCall {
    if operands != [] && operands[0] != "" && operands[0][0] == '-' then ReadsOption
    else Runs(LeadingAssignments(operands), operands[|LeadingAssignments(operands)|..])
  }

  function LeadingAssignments(operands: seq<string>): (r: seq<string>)
    ensures r <= operands
  {
    if operands != [] && '=' in operands[0] then [operands[0]] + LeadingAssignments(operands[1..]) else []
  }

  lemma {:induction false} AssignmentsLead(assignments: seq<string>, command: seq<string>)
    requires forall i :: 0 <= i < |assignments| ==> '=' in assignments[i]
    ensures LeadingAssignments(assignments + command) == assignments + LeadingAssignments(command)
  {
    if assignments == [] {
      assert assignments + command == command;
    } else {
      assert (assignments + command)[1..] == assignments[1..] + command;
      AssignmentsLead(assignments[1..], command);
    }
  }

  /** The command reaches `env` intact, but `env` runs exactly that command with exactly that
    * environment if and only if its first word holds no `=` and, when there is no environment,
    * does not begin with a dash. */
  lemma EnvRunsTheCommand(environment: seq<(string, string)>, command: seq<string>)
    requires command != []
    requires forall i :: 0 <= i < |environment| ==> ShellName(environment[i].0)
    ensures EnvOperands(Assignments(environment) + command) == Runs(Assignments(environment), command)
       <==> '=' !in command[0] && (environment != [] || command[0] == "" || command[0][0] != '-')
  {
    var assignments := Assignments(environment);
    forall i | 0 <= i < |assignments| ensures '=' in assignments[i] {
      assert assignments[i][|environment[i].0|] == '=';
    }
    AssignmentsLead(assignments, command);
    var operands := assignments + command;
    if environment != [] {
      assert operands[0] == assignments[0];
      assert assignments[0][0] == environment[0].0[0];
    } else {
      assert operands == command;
    }
    if '=' in command[0] {
      assert LeadingAssignments(command) != [];
    } else {
      assert assignments + [] == assignments;
      assert operands[|assignments|..] == command;
    }
  }

  /** A command that `env` takes for a variable, and one that it takes for an option. */
  lemma EnvMisreads()
    ensures EnvOperands(["a=b", "c"]) == Runs(["a=b"], ["c"]) && EnvOperands(["-x"]) == ReadsOption
  {
  }
}
