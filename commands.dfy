/**
 The command strings the client sends to the CogServer: the JSON `command`
 value of a shell or Scheme request, and the agent, file-loading and
 attentional-focus commands built by string concatenation and `format`.

 Each builder has a parser beside it that reads its arguments back; the
 lemmas say that parsing undoes building, and that whatever parses came
 from the builder, so no information is lost or invented by a builder.
 */
module Commands {
  import opened Records
  import opened Text

  const LoadPyPrefix := "loadpy "
  const AgentsStartPrefix := "agents-start "
  const AgentsStepPrefix := "agents-step opencog::"
  const PyMindAgentPrefix := "agents-step opencog::PyMindAgent("
  const LoadScmPrefix := "(load-scm-from-file \""
  const LoadScmSuffix := "\")"
  const AfBoundaryPrefix := "(cog-set-af-boundary! "

  /** The `command` value posted by `shell` and by `scheme`: the command and a newline. */
  function ShellPayload(command: string): (r: string)
    ensures ParsePayload(r) == Some(command)
  {
    command + "\n"
  }

  function ParsePayload(payload: string): Option<string>
  {
    StripSuffix(payload, "\n")
  }

  /** A payload reads back as command c exactly when it is the payload of c. */
  lemma PayloadRoundTrip(payload: string, command: string)
    ensures ParsePayload(payload) == Some(command) <==> payload == ShellPayload(command)
  {
  }

  /** `"{0}.{1}".format(path, name)`: an agent named by module path and class name. */
  function AgentRef(path: string, name: string): string
  {
    path + "." + name
  }

  /** Splits an agent reference at its LAST dot. */
  function ParseAgentRef(s: string): Option<(string, string)>
  {
    match RFind(s, ".")
    case None => None
    case Some(i) => Some((s[..i], s[i + 1..]))
  }

  /**
   A reference reads back as the path and name it was built from, provided
   the name has no dot (paths such as `../opencog/python/...` do have dots).
   */
  lemma AgentRefRoundTrip(path: string, name: string)
    requires '.' !in name
    ensures ParseAgentRef(AgentRef(path, name)) == Some((path, name))
  {
    var s := AgentRef(path, name);
    var k := |path|;
    assert OccursAt(s, ".", k);
    forall i | k < i
      ensures !OccursAt(s, ".", i)
    {
      if i < |s| {
        assert s[i] == name[i - k - 1];
        assert s[i..i + 1] == [s[i]];
      }
    }
    var found := RFind(s, ".");
    assert found.Some?;
    assert found.value == k;
    assert s[..k] == path;
    assert s[k + 1..] == name;
  }

  /** Whatever parses as an agent reference is the reference of its parts, with a dot-free name. */
  lemma ParseAgentRefSound(s: string, path: string, name: string)
    requires ParseAgentRef(s) == Some((path, name))
    ensures s == AgentRef(path, name) && '.' !in name
  {
    var i := RFind(s, ".").value;
    assert s == s[..i] + "." + s[i + 1..];
    forall j | 0 <= j < |name|
      ensures name[j] != '.'
    {
      assert s[i + 1 + j] == name[j];
      assert !OccursAt(s, ".", i + 1 + j);
      assert s[i + 1 + j..i + 2 + j] == [name[j]];
    }
  }

  /** Without the dot-free name, two different agents share one reference. */
  lemma AgentRefAmbiguous()
    ensures AgentRef("a.b", "c") == AgentRef("a", "b.c")
  {
  }

  /** `load_python_agent`: `"loadpy {0}".format(path)`. */
  function LoadPythonAgent(path: string): (r: string)
    ensures ParseLoadPythonAgent(r) == Some(path)
  {
    LoadPyPrefix + path
  }

  function ParseLoadPythonAgent(command: string): Option<string>
  {
    StripPrefix(command, LoadPyPrefix)
  }

  lemma LoadPythonAgentRoundTrip(command: string, path: string)
    ensures ParseLoadPythonAgent(command) == Some(path) <==> command == LoadPythonAgent(path)
  {
  }

  /** `start_python_agent`: `"agents-start {0}.{1}".format(path, name)`. */
  function StartPythonAgent(path: string, name: string): (r: string)
    ensures '.' !in name ==> ParseStartPythonAgent(r) == Some((path, name))
  {
    var command := AgentsStartPrefix + AgentRef(path, name);
    assert command[..|AgentsStartPrefix|] == AgentsStartPrefix;
    assert command[|AgentsStartPrefix|..] == AgentRef(path, name);
    if '.' !in name then
      AgentRefRoundTrip(path, name);
      command
    else
      command
  }

  function ParseStartPythonAgent(command: string): Option<(string, string)>
  {
    match StripPrefix(command, AgentsStartPrefix)
    case None => None
    case Some(rest) => ParseAgentRef(rest)
  }

  lemma ParseStartPythonAgentSound(command: string, path: string, name: string)
    requires ParseStartPythonAgent(command) == Some((path, name))
    ensures command == StartPythonAgent(path, name) && '.' !in name
  {
    var rest := StripPrefix(command, AgentsStartPrefix).value;
    ParseAgentRefSound(rest, path, name);
  }

  /** `step_agent`: `"agents-step opencog::{0}".format(name)`. */
  function StepAgent(name: string): (r: string)
    ensures ParseStepAgent(r) == Some(name)
  {
    AgentsStepPrefix + name
  }

  function ParseStepAgent(command: string): Option<string>
  {
    StripPrefix(command, AgentsStepPrefix)
  }

  lemma StepAgentRoundTrip(command: string, name: string)
    ensures ParseStepAgent(command) == Some(name) <==> command == StepAgent(name)
  {
  }

  /** `step_python_agent`: `"agents-step opencog::PyMindAgent({0}.{1})".format(path, name)`. */
  function StepPythonAgent(path: string, name: string): (r: string)
    ensures '.' !in name ==> ParseStepPythonAgent(r) == Some((path, name))
  {
    var reference := AgentRef(path, name);
    var command := PyMindAgentPrefix + reference + ")";
    assert command == PyMindAgentPrefix + (reference + ")");
    assert command[..|PyMindAgentPrefix|] == PyMindAgentPrefix;
    var rest := command[|PyMindAgentPrefix|..];
    assert rest == reference + ")";
    assert rest[|rest| - 1..] == ")";
    assert rest[..|rest| - 1] == reference;
    if '.' !in name then
      AgentRefRoundTrip(path, name);
      command
    else
      command
  }

  function ParseStepPythonAgent(command: string): Option<(string, string)>
  {
    match StripPrefix(command, PyMindAgentPrefix)
    case None => None
    case Some(rest) =>
      match StripSuffix(rest, ")")
      case None => None
      case Some(reference) => ParseAgentRef(reference)
  }

  lemma ParseStepPythonAgentSound(command: string, path: string, name: string)
    requires ParseStepPythonAgent(command) == Some((path, name))
    ensures command == StepPythonAgent(path, name) && '.' !in name
  {
    var rest := StripPrefix(command, PyMindAgentPrefix).value;
    var reference := StripSuffix(rest, ")").value;
    ParseAgentRefSound(reference, path, name);
  }

  /** Stepping a Python agent is stepping the C++ agent `PyMindAgent(path.name)`. */
  lemma StepPythonAgentIsStepAgent(path: string, name: string)
    ensures StepPythonAgent(path, name) == StepAgent("PyMindAgent(" + AgentRef(path, name) + ")")
  {
  }

  /** The Scheme command `load_scheme_files` issues for one file under the source folder. */
  function LoadScmCommand(sourceFolder: string, file: string): (r: string)
    ensures ParseLoadScmCommand(sourceFolder, r) == Some(file)
  {
    var prefix := LoadScmPrefix + sourceFolder;
    var command := LoadScmPrefix + sourceFolder + file + LoadScmSuffix;
    assert command == prefix + (file + LoadScmSuffix);
    assert command[..|prefix|] == prefix;
    var rest := command[|prefix|..];
    assert rest == file + LoadScmSuffix;
    assert rest[|rest| - |LoadScmSuffix|..] == LoadScmSuffix;
    assert rest[..|rest| - |LoadScmSuffix|] == file;
    command
  }

  function ParseLoadScmCommand(sourceFolder: string, command: string): Option<string>
  {
    match StripPrefix(command, LoadScmPrefix + sourceFolder)
    case None => None
    case Some(rest) => StripSuffix(rest, LoadScmSuffix)
  }

  /** Whatever reads back as a file name is the load command for that file. */
  lemma ParseLoadScmCommandSound(sourceFolder: string, command: string, file: string)
    requires ParseLoadScmCommand(sourceFolder, command) == Some(file)
    ensures command == LoadScmCommand(sourceFolder, file)
  {
    var rest := StripPrefix(command, LoadScmPrefix + sourceFolder).value;
    assert command == LoadScmPrefix + sourceFolder + rest;
    assert rest == file + LoadScmSuffix;
  }

  /**
   `load_scheme_files`: one `(load-scm-from-file "...")` Scheme command per
   file, issued in list order. The commands handed to `scheme` are returned;
   the HTTP request that carries each one is left out.
   */
  method LoadSchemeFiles(sourceFolder: string, files: seq<string>) returns (sent: seq<string>)
    ensures |sent| == |files|
    ensures forall i :: 0 <= i < |files| ==> sent[i] == LoadScmCommand(sourceFolder, files[i])
    ensures forall i :: 0 <= i < |files| ==> ParseLoadScmCommand(sourceFolder, sent[i]) == Some(files[i])
  {
    sent := [];
    var k := 0;
    while k < |files|
      invariant 0 <= k <= |files|
      invariant |sent| == k
      invariant forall i :: 0 <= i < k ==> sent[i] == LoadScmCommand(sourceFolder, files[i])
    {
      var command := LoadScmPrefix + sourceFolder + files[k] + LoadScmSuffix;
      sent := sent + [command];
      k := k + 1;
    }
  }

  /** `set_af_boundary`: `"(cog-set-af-boundary! {0})".format(value)`. */
  function SetAfBoundary(value: int): (r: string)
    ensures ParseSetAfBoundary(r) == Some(value)
  {
    var numeral := IntToDecimal(value);
    var command := AfBoundaryPrefix + numeral + ")";
    assert command == AfBoundaryPrefix + (numeral + ")");
    assert command[..|AfBoundaryPrefix|] == AfBoundaryPrefix;
    var rest := command[|AfBoundaryPrefix|..];
    assert rest == numeral + ")";
    assert rest[|rest| - 1..] == ")";
    assert rest[..|rest| - 1] == numeral;
    command
  }

  function ParseSetAfBoundary(command: string): Option<int>
  {
    match StripPrefix(command, AfBoundaryPrefix)
    case None => None
    case Some(rest) =>
      match StripSuffix(rest, ")")
      case None => None
      case Some(numeral) => ParseInt(numeral)
  }

  /**
   Whatever reads back as a boundary value is exactly the command for that
   value: no other spelling of the number (leading zeros, "-0") is accepted.
   */
  lemma ParseSetAfBoundarySound(command: string, value: int)
    requires ParseSetAfBoundary(command) == Some(value)
    ensures command == SetAfBoundary(value)
  {
    var rest := StripPrefix(command, AfBoundaryPrefix).value;
    var numeral := StripSuffix(rest, ")").value;
    IntToDecimalSound(numeral, value);
    assert command == AfBoundaryPrefix + numeral + ")";
  }

  const ConfigPrefix := "(EvaluationLink (PredicateNode \"CONFIG-"
  const ConfigMiddle := "\") (ListLink (NumberNode \""
  const ConfigSuffix := "\")))"

  /**
   The Scheme command that sets the attention-allocation parameter
   `CONFIG-<parameter>` to an integer value, as an `EvaluationLink` whose
   argument is a `NumberNode` holding the value's decimal form.
   */
  function ConfigCommand(parameter: string, value: int): (r: string)
    ensures ParseConfigCommand(parameter, r) == Some(value)
  {
    var prefix := ConfigPrefix + parameter + ConfigMiddle;
    var numeral := IntToDecimal(value);
    var command := prefix + numeral + ConfigSuffix;
    assert command == prefix + (numeral + ConfigSuffix);
    assert command[..|prefix|] == prefix;
    var rest := command[|prefix|..];
    assert rest == numeral + ConfigSuffix;
    assert rest[|rest| - |ConfigSuffix|..] == ConfigSuffix;
    assert rest[..|rest| - |ConfigSuffix|] == numeral;
    command
  }

  function ParseConfigCommand(parameter: string, command: string): Option<int>
  {
    match StripPrefix(command, ConfigPrefix + parameter + ConfigMiddle)
    case None => None
    case Some(rest) =>
      match StripSuffix(rest, ConfigSuffix)
      case None => None
      case Some(numeral) => ParseInt(numeral)
  }

  /** Whatever reads back as a value of a parameter is exactly the command setting it. */
  lemma ParseConfigCommandSound(parameter: string, command: string, value: int)
    requires ParseConfigCommand(parameter, command) == Some(value)
    ensures command == ConfigCommand(parameter, value)
  {
    var rest := StripPrefix(command, ConfigPrefix + parameter + ConfigMiddle).value;
    var numeral := StripSuffix(rest, ConfigSuffix).value;
    IntToDecimalSound(numeral, value);
    assert command == ConfigPrefix + parameter + ConfigMiddle + numeral + ConfigSuffix;
  }

  /**
   Two fields of a string that both start at its beginning and are both
   closed by the same delimiter character, which neither contains, are equal.
   */
  lemma FieldBeforeDelimiter(s: string, a: string, b: string, delimiter: char)
    requires StartsWith(s, a + [delimiter]) && StartsWith(s, b + [delimiter])
    requires delimiter !in a && delimiter !in b
    ensures a == b
  {
    assert forall i :: 0 <= i < |a| ==> s[i] == a[i] && s[i] != delimiter;
    assert forall i :: 0 <= i < |b| ==> s[i] == b[i] && s[i] != delimiter;
    assert (a + [delimiter])[|a|] == delimiter && (b + [delimiter])[|b|] == delimiter;
    assert s[|a|] == delimiter && s[|b|] == delimiter;
    assert |a| == |b|;
    assert a == s[..|a|] == b;
  }

  /** A string starting with x + y + z has, after x, the field y closed by z's first character. */
  lemma FieldAfter(s: string, x: string, y: string, z: string)
    requires |z| > 0 && StartsWith(s, x + y + z)
    ensures |x| <= |s| && StartsWith(s[|x|..], y + [z[0]])
  {
    var w := x + y + z;
    assert s[..|w|] == w;
    assert forall i :: 0 <= i < |y| ==> s[|x| + i] == w[|x| + i] == y[i];
    assert s[|x| + |y|] == w[|x| + |y|] == z[0];
    assert s[|x|..][..|y| + 1] == y + [z[0]];
  }

  /**
   A command names its parameter unambiguously: among parameter names without
   a double quote, a command reads back as a value of at most one of them.
   */
  lemma ConfigCommandNamesParameter(command: string, parameter: string, other: string)
    requires '"' !in parameter && '"' !in other
    requires ParseConfigCommand(parameter, command).Some?
    requires ParseConfigCommand(other, command).Some?
    ensures parameter == other
  {
    assert StartsWith(command, ConfigPrefix + parameter + ConfigMiddle);
    assert StartsWith(command, ConfigPrefix + other + ConfigMiddle);
    assert ConfigMiddle[0] == '"';
    FieldAfter(command, ConfigPrefix, parameter, ConfigMiddle);
    FieldAfter(command, ConfigPrefix, other, ConfigMiddle);
    FieldBeforeDelimiter(command[|ConfigPrefix|..], parameter, other, '"');
  }

  /** `set_stimulus_amount`: sets `CONFIG-StimulusAmount`. */
  function SetStimulusAmount(value: int): (r: string)
    ensures ParseConfigCommand("StimulusAmount", r) == Some(value)
  {
    ConfigCommand("StimulusAmount", value)
  }

  /** `set_rent`: sets `CONFIG-Rent`. */
  function SetRent(value: int): (r: string)
    ensures ParseConfigCommand("Rent", r) == Some(value)
  {
    ConfigCommand("Rent", value)
  }

  /** `set_wages`: sets `CONFIG-Wages`. */
  function SetWages(value: int): (r: string)
    ensures ParseConfigCommand("Wages", r) == Some(value)
  {
    ConfigCommand("Wages", value)
  }
}
