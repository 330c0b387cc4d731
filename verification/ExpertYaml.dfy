/** The expert-definition parser: a stack of open sections over indented lines. */
module ExpertYaml {
  import opened Text
  import opened YamlLines

  datatype Metadata = Metadata(
    expertID: string, expertName: string, expertType: string, version: string, owner: string, description: string)

  datatype Routing = Routing(priority: int, tags: seq<string>)

  datatype Runtime = Runtime(mode: string, entrypoint: string, timeoutSeconds: int, maxConcurrency: int)

  datatype Outputs = Outputs(resultSchema: string, evidenceMode: string)

  datatype Spec = Spec(
    enabled: bool, capabilities: seq<string>, routing: Routing, runtime: Runtime, accepts: seq<string>, outputs: Outputs)

  datatype ExpertDefinition = ExpertDefinition(apiVersion: string, kind: string, metadata: Metadata, spec: Spec)

  function Zero(): ExpertDefinition {
    ExpertDefinition("", "", Metadata("", "", "", "", "", ""),
                     Spec(false, [], Routing(0, []), Runtime("", "", 0, 0), [], Outputs("", "")))
  }

  datatype PathNode = PathNode(indent: nat, key: string)

  // ---- values --------------------------------------------------------------------------------

  /** `strings.ToLower` on the letters that matter to `strconv.ParseBool`. */
  function Lower(s: string): (r: string)
    ensures |r| == |s|
  {
    if s == "" then "" else [if 'A' <= s[0] <= 'Z' then s[0] - 'A' + 'a' else s[0]] + Lower(s[1..])
  }

  /** `strconv.ParseBool` of a lower-case text. */
  function ParseBool(s: string): Option<bool> {
    if s in ["1", "t", "true"] then Some(true)
    else if s in ["0", "f", "false"] then Some(false)
    else None
  }

  function Bool(b: bool): string {
    if b then "true" else "false"
  }

  lemma BoolText(b: bool)
    ensures TextOk(Bool(b)) && Unquote(Bool(b)) == Bool(b) && ParseBool(Lower(Bool(b))) == Some(b)
  {
    hide TextOk, Unquote, Lower;
    var s := Bool(b);
    assert s != "" && forall i :: 0 <= i < |s| ==> 'a' <= s[i] <= 'z';
    PlainText(s);
    LowerLetters(s);
  }

  lemma PlainText(s: string)
    requires s != "" && forall i :: 0 <= i < |s| ==> 'a' <= s[i] <= 'z'
    ensures TextOk(s) && Unquote(s) == s
  {
    StripPlain(s, "");
    assert s + "" == s;
    TrimOfBare(s, IsSpace);
  }

  lemma {:induction false} LowerLetters(s: string)
    requires forall i :: 0 <= i < |s| ==> 'a' <= s[i] <= 'z'
    ensures Lower(s) == s
  {
    if s != "" { LowerLetters(s[1..]); }
  }

  /** Only letters that are not lower-case change, and only their case. */
  lemma {:induction false} LowerAt(s: string, i: nat)
    requires i < |s|
    ensures Lower(s)[i] == if 'A' <= s[i] <= 'Z' then s[i] - 'A' + 'a' else s[i]
  {
    if i > 0 { LowerAt(s[1..], i - 1); }
  }

  /** `s` is `word`, in any case. */
  predicate SaysWord(s: string, word: string) {
    |s| == |word| && forall i :: 0 <= i < |s| ==> s[i] == word[i] || ('A' <= s[i] <= 'Z' && s[i] - 'A' + 'a' == word[i])
  }

  /** No capital letter. */
  predicate NoCapitals(word: string) {
    forall i :: 0 <= i < |word| ==> !('A' <= word[i] <= 'Z')
  }

  lemma LowerSays(s: string, word: string)
    requires NoCapitals(word)
    ensures Lower(s) == word <==> SaysWord(s, word)
  {
    forall i | 0 <= i < |s| ensures Lower(s)[i] == if 'A' <= s[i] <= 'Z' then s[i] - 'A' + 'a' else s[i] { LowerAt(s, i); }
    hide Lower;
    if SaysWord(s, word) { assert forall i :: 0 <= i < |s| ==> Lower(s)[i] == word[i]; }
  }

  /** The texts read as true and as false, in any case. */
  lemma BoolExactly(s: string)
    ensures ParseBool(Lower(s)) == Some(true) <==> SaysWord(s, "1") || SaysWord(s, "t") || SaysWord(s, "true")
    ensures ParseBool(Lower(s)) == Some(false) <==> SaysWord(s, "0") || SaysWord(s, "f") || SaysWord(s, "false")
  {
    LowerSays(s, "1");
    LowerSays(s, "t");
    LowerSays(s, "true");
    LowerSays(s, "0");
    LowerSays(s, "f");
    LowerSays(s, "false");
    assert "true"[0] == 't' && "false"[0] == 'f' && "1"[0] == '1' && "0"[0] == '0';
    hide Lower, SaysWord;
  }

  datatype Slot =
    | ApiVersion | Kind
    | ExpertID | ExpertName | ExpertType | Version | Owner | Description
    | Enabled | Priority | Mode | Entrypoint | Timeout | Concurrency | ResultSchema | EvidenceMode

  function SlotPath(slot: Slot): string {
    match slot
    case ApiVersion => "api_version"
    case Kind => "kind"
    case ExpertID => "metadata.expert_id"
    case ExpertName => "metadata.expert_name"
    case ExpertType => "metadata.expert_type"
    case Version => "metadata.version"
    case Owner => "metadata.owner"
    case Description => "metadata.description"
    case Enabled => "spec.enabled"
    case Priority => "spec.routing.priority"
    case Mode => "spec.runtime.mode"
    case Entrypoint => "spec.runtime.entrypoint"
    case Timeout => "spec.runtime.timeout_seconds"
    case Concurrency => "spec.runtime.max_concurrency"
    case ResultSchema => "spec.outputs.result_schema"
    case EvidenceMode => "spec.outputs.evidence_mode"
  }

  const SLOTS := [
    ApiVersion, Kind, ExpertID, ExpertName, ExpertType, Version, Owner, Description,
    Enabled, Priority, Mode, Entrypoint, Timeout, Concurrency, ResultSchema, EvidenceMode]

  /** The first case of the switch whose label is `path`. */
  function SlotFrom(path: string, i: nat): Option<Slot>
    requires i <= |SLOTS|
    decreases |SLOTS| - i
  {
    if i == |SLOTS| then None
    else if SlotPath(SLOTS[i]) == path then Some(SLOTS[i])
    else SlotFrom(path, i + 1)
  }

  function SlotOf(path: string): Option<Slot> {
    SlotFrom(path, 0)
  }

  function OrElse<T>(o: Option<T>, otherwise: T): T {
    if o.Some? then o.value else otherwise
  }

  function SetSlot(out: ExpertDefinition, slot: Slot, value: string): ExpertDefinition {
    var m, s := out.metadata, out.spec;
    match slot
    case ApiVersion => out.(apiVersion := value)
    case Kind => out.(kind := value)
    case ExpertID => out.(metadata := m.(expertID := value))
    case ExpertName => out.(metadata := m.(expertName := value))
    case ExpertType => out.(metadata := m.(expertType := value))
    case Version => out.(metadata := m.(version := value))
    case Owner => out.(metadata := m.(owner := value))
    case Description => out.(metadata := m.(description := value))
    case Enabled => out.(spec := s.(enabled := OrElse(ParseBool(Lower(value)), s.enabled)))
    case Priority => out.(spec := s.(routing := s.routing.(priority := OrElse(ParseInt(value), s.routing.priority))))
    case Mode => out.(spec := s.(runtime := s.runtime.(mode := value)))
    case Entrypoint => out.(spec := s.(runtime := s.runtime.(entrypoint := value)))
    case Timeout =>
      out.(spec := s.(runtime := s.runtime.(timeoutSeconds := OrElse(ParseInt(value), s.runtime.timeoutSeconds))))
    case Concurrency =>
      out.(spec := s.(runtime := s.runtime.(maxConcurrency := OrElse(ParseInt(value), s.runtime.maxConcurrency))))
    case ResultSchema => out.(spec := s.(outputs := s.outputs.(resultSchema := value)))
    case EvidenceMode => out.(spec := s.(outputs := s.outputs.(evidenceMode := value)))
  }

  function SetScalar(out: ExpertDefinition, path: string, value: string): ExpertDefinition {
    match SlotOf(path)
    case None => out
    case Some(slot) => SetSlot(out, slot, value)
  }

  function AddItem(out: ExpertDefinition, path: string, value: string): ExpertDefinition {
    var s := out.spec;
    if path == "spec.capabilities" then out.(spec := s.(capabilities := s.capabilities + [value]))
    else if path == "spec.routing.tags" then out.(spec := s.(routing := s.routing.(tags := s.routing.tags + [value])))
    else if path == "spec.inputs.accepts" then out.(spec := s.(accepts := s.accepts + [value]))
    else out
  }

  // ---- the parser on values --------------------------------------------------------------------

  datatype State = State(stack: seq<PathNode>, out: ExpertDefinition)

  function Init(): State {
    State([], Zero())
  }

  /** The sections a line of this indentation leaves open. */
  function PopTo(stack: seq<PathNode>, indent: nat): seq<PathNode> {
    if stack != [] && indent <= stack[|stack| - 1].indent then PopTo(stack[..|stack| - 1], indent) else stack
  }

  function Keys(stack: seq<PathNode>): (r: seq<string>)
    ensures |r| == |stack|
    ensures forall i :: 0 <= i < |stack| ==> r[i] == stack[i].key
  {
    if stack == [] then [] else Keys(stack[..|stack| - 1]) + [stack[|stack| - 1].key]
  }

  function Dotted(keys: seq<string>): string {
    Join(keys, ".")
  }

  /** What a line does once the sections it dedents to are closed. */
  function Apply(stack: seq<PathNode>, out: ExpertDefinition, c: Content): State {
    if HasPrefix(c.text, "- ") then
      var item := TrimSpace(TrimPrefix(c.text, "- "));
      if item == "" then State(stack, out)
      else State(stack, AddItem(out, Dotted(Keys(stack)), Unquote(item)))
    else match SplitKeyValue(c.text)
      case None => State(stack, out)
      case Some((key, value)) =>
        if value == "" then State(stack + [PathNode(c.indent, key)], out)
        else State(stack, SetScalar(out, Dotted(Keys(stack) + [key]), value))
  }

  function Step(st: State, line: string): State {
    match ContentOf(line)
    case None => st
    case Some(c) => Apply(PopTo(st.stack, c.indent), st.out, c)
  }

  function Run(st: State, lines: seq<string>): State
    decreases |lines|
  {
    if lines == [] then st else Run(Step(st, lines[0]), lines[1..])
  }

  function Parse(raw: string): ExpertDefinition {
    Run(Init(), Split(raw, '\n')).out
  }

  // ---- the parser ---------------------------------------------------------------------------------

  method PathParts(stack: seq<PathNode>) returns (parts: seq<string>)
    ensures parts == Keys(stack)
  {
    parts := [];
    for i := 0 to |stack|
      invariant parts == Keys(stack[..i])
    {
      assert stack[..i + 1][..i] == stack[..i];
      parts := parts + [stack[i].key];
    }
    assert stack[..|stack|] == stack;
  }

  method ParseExpertDefinition(raw: string) returns (out: ExpertDefinition)
    ensures out == Parse(raw)
  {
    var lines := Split(raw, '\n');
    out := Zero();
    var stack: seq<PathNode> := [];
    for i := 0 to |lines|
      invariant Run(State(stack, out), lines[i..]) == Run(Init(), lines)
    {
      hide PopTo, SplitKeyValue, Unquote, SetScalar, AddItem, Keys, Dotted, StripComment, Trim, HasPrefix, TrimPrefix, LeadingSpaces;
      assert lines[i..][1..] == lines[i + 1..];
      ghost var before := State(stack, out);
      var stripped := StripInlineComment(lines[i]);
      var trimmed := TrimSpace(stripped);
      if trimmed == "" { continue; }
      var indent := CountLeadingSpaces(lines[i]);
      stack := CloseSections(stack, indent);
      if HasPrefix(trimmed, "- ") {
        var item := TrimSpace(TrimPrefix(trimmed, "- "));
        if item == "" { continue; }
        var parts := PathParts(stack);
        out := AddItem(out, Dotted(parts), Unquote(item));
        continue;
      }
      var pair := SplitKeyValue(trimmed);
      if pair.None? { continue; }
      var (key, value) := pair.value;
      if value == "" {
        stack := stack + [PathNode(indent, key)];
        continue;
      }
      var parts := PathParts(stack);
      out := SetScalar(out, Dotted(parts + [key]), value);
    }
    assert lines[|lines|..] == [];
  }

  method CloseSections(open: seq<PathNode>, indent: nat) returns (stack: seq<PathNode>)
    ensures stack == PopTo(open, indent)
  {
    stack := open;
    while |stack| > 0 && indent <= stack[|stack| - 1].indent
      invariant PopTo(stack, indent) == PopTo(open, indent)
    {
      stack := stack[..|stack| - 1];
    }
  }

  // ---- what the stack means --------------------------------------------------------------------------

  predicate Opens(line: string) {
    && ContentOf(line).Some?
    && !HasPrefix(ContentOf(line).value.text, "- ")
    && SplitKeyValue(ContentOf(line).value.text).Some?
    && SplitKeyValue(ContentOf(line).value.text).value.1 == ""
  }

  function Opened(line: string): PathNode
    requires Opens(line)
  {
    PathNode(ContentOf(line).value.indent, SplitKeyValue(ContentOf(line).value.text).value.0)
  }

  /** Line `i` opened a section no later line that says something, among the first `n`, has dedented to. */
  ghost predicate StillOpen(lines: seq<string>, n: nat, i: nat)
    requires i < n <= |lines|
  {
    && Opens(lines[i])
    && forall j :: i < j < n && ContentOf(lines[j]).Some? ==> ContentOf(lines[j]).value.indent > Opened(lines[i]).indent
  }

  /** The sections of the first `k` lines still open after `n`, outermost first. */
  ghost function OpenAmong(lines: seq<string>, n: nat, k: nat): seq<PathNode>
    requires k <= n <= |lines|
  {
    if k == 0 then []
    else if StillOpen(lines, n, k - 1) then OpenAmong(lines, n, k - 1) + [Opened(lines[k - 1])]
    else OpenAmong(lines, n, k - 1)
  }

  ghost predicate Increasing(stack: seq<PathNode>) {
    forall i, j :: 0 <= i < j < |stack| ==> stack[i].indent < stack[j].indent
  }

  ghost function Below(stack: seq<PathNode>, indent: nat): seq<PathNode> {
    if stack == [] then []
    else if stack[|stack| - 1].indent < indent then Below(stack[..|stack| - 1], indent) + [stack[|stack| - 1]]
    else Below(stack[..|stack| - 1], indent)
  }

  lemma {:induction false} AllBelow(stack: seq<PathNode>, indent: nat)
    requires forall i :: 0 <= i < |stack| ==> stack[i].indent < indent
    ensures Below(stack, indent) == stack
  {
    if stack != [] { AllBelow(stack[..|stack| - 1], indent); }
  }

  lemma {:induction false} PopIsBelow(stack: seq<PathNode>, indent: nat)
    requires Increasing(stack)
    ensures PopTo(stack, indent) == Below(stack, indent)
    ensures forall i :: 0 <= i < |PopTo(stack, indent)| ==> PopTo(stack, indent)[i].indent < indent
    ensures Increasing(PopTo(stack, indent))
  {
    if stack != [] && indent <= stack[|stack| - 1].indent {
      PopIsBelow(stack[..|stack| - 1], indent);
    } else {
      AllBelow(stack, indent);
    }
  }

  /** The nodes a line leaves open. */
  ghost function LeftOpen(nodes: seq<PathNode>, line: string): seq<PathNode> {
    match ContentOf(line)
    case None => nodes
    case Some(c) => Below(nodes, c.indent)
  }

  ghost predicate Closes(line: string, node: PathNode) {
    ContentOf(line).Some? && ContentOf(line).value.indent <= node.indent
  }

  lemma LeftOpenAppend(nodes: seq<PathNode>, node: PathNode, line: string)
    ensures LeftOpen(nodes + [node], line) == if Closes(line, node) then LeftOpen(nodes, line) else LeftOpen(nodes, line) + [node]
  {
    hide ContentOf;
    assert (nodes + [node])[..|nodes|] == nodes;
  }

  lemma StillOpenStep(lines: seq<string>, n: nat, i: nat)
    requires i < n < |lines|
    ensures StillOpen(lines, n, i) ==> Opens(lines[i])
    ensures StillOpen(lines, n + 1, i) <==> StillOpen(lines, n, i) && !Closes(lines[n], Opened(lines[i]))
  {
    hide ContentOf, Opens, Opened;
  }

  lemma LeftOpenNone(line: string)
    ensures LeftOpen([], line) == []
  {
    hide ContentOf;
  }

  lemma {:induction false} StillOpenNext(lines: seq<string>, n: nat, k: nat)
    requires k <= n < |lines|
    ensures OpenAmong(lines, n + 1, k) == LeftOpen(OpenAmong(lines, n, k), lines[n])
  {
    hide Opens, Opened, StillOpen, LeftOpen, Closes;
    if k == 0 {
      LeftOpenNone(lines[n]);
    } else {
      StillOpenNext(lines, n, k - 1);
      StillOpenStep(lines, n, k - 1);
      if StillOpen(lines, n, k - 1) {
        LeftOpenAppend(OpenAmong(lines, n, k - 1), Opened(lines[k - 1]), lines[n]);
      }
    }
  }

  lemma {:induction false} RunAppend(st: State, lines: seq<string>, line: string)
    ensures Run(st, lines + [line]) == Step(Run(st, lines), line)
    decreases |lines|
  {
    if lines == [] {
      assert lines + [line] == [line];
    } else {
      assert (lines + [line])[1..] == lines[1..] + [line];
      RunAppend(Step(st, lines[0]), lines[1..], line);
    }
  }

  lemma StepStack(st: State, line: string)
    ensures Step(st, line).stack ==
            match ContentOf(line)
            case None => st.stack
            case Some(c) => if Opens(line) then PopTo(st.stack, c.indent) + [Opened(line)] else PopTo(st.stack, c.indent)
  {
    hide ContentOf, SplitKeyValue, HasPrefix, PopTo, AddItem, SetScalar, Keys, Dotted, Trim, TrimPrefix, Unquote;
  }

  lemma LastOpen(lines: seq<string>, n: nat)
    requires n < |lines|
    ensures StillOpen(lines, n + 1, n) <==> Opens(lines[n])
  {
    hide Opens;
  }

  /** A step of the open sections, in the same terms as a step of the stack. */
  lemma OpenStep(lines: seq<string>, n: nat)
    requires n < |lines| && Increasing(OpenAmong(lines, n, n))
    ensures var before, after := OpenAmong(lines, n, n), OpenAmong(lines, n + 1, n + 1);
            && Increasing(after)
            && after == match ContentOf(lines[n])
               case None => before
               case Some(c) => if Opens(lines[n]) then PopTo(before, c.indent) + [Opened(lines[n])] else PopTo(before, c.indent)
  {
    StillOpenNext(lines, n, n);
    LastOpen(lines, n);
    if ContentOf(lines[n]).Some? { PopIsBelow(OpenAmong(lines, n, n), ContentOf(lines[n]).value.indent); }
    assert OpenAmong(lines, n + 1, n + 1) ==
           if Opens(lines[n]) then OpenAmong(lines, n + 1, n) + [Opened(lines[n])] else OpenAmong(lines, n + 1, n);
    hide ContentOf, SplitKeyValue, HasPrefix, PopTo, Below, OpenAmong, StillOpen;
  }

  lemma RunNext(lines: seq<string>, n: nat)
    requires n < |lines|
    ensures Run(Init(), lines[..n + 1]) == Step(Run(Init(), lines[..n]), lines[n])
  {
    assert lines[..n + 1] == lines[..n] + [lines[n]];
    RunAppend(Init(), lines[..n], lines[n]);
    hide Run, Step;
  }

  /** After any lines the stack holds exactly the sections still open, at strictly increasing indents. */
  lemma {:induction false} StackMeaning(lines: seq<string>, n: nat)
    requires n <= |lines|
    ensures Run(Init(), lines[..n]).stack == OpenAmong(lines, n, n)
    ensures Increasing(OpenAmong(lines, n, n))
  {
    if n > 0 {
      hide ContentOf, Opens, Opened, PopTo, Step, Run, OpenAmong, Increasing;
      StackMeaning(lines, n - 1);
      RunNext(lines, n - 1);
      StepStack(Run(Init(), lines[..n - 1]), lines[n - 1]);
      OpenStep(lines, n - 1);
    }
  }

  // ---- blank lines and comments -------------------------------------------------------------------------

  function RunContents(st: State, contents: seq<Content>): State
    decreases |contents|
  {
    if contents == [] then st
    else RunContents(Apply(PopTo(st.stack, contents[0].indent), st.out, contents[0]), contents[1..])
  }

  lemma {:induction false} RunIsContents(st: State, lines: seq<string>)
    ensures Run(st, lines) == RunContents(st, Contents(lines))
    decreases |lines|
  {
    if lines != [] {
      hide ContentOf, Apply, PopTo;
      RunIsContents(Step(st, lines[0]), lines[1..]);
      if ContentOf(lines[0]).Some? {
        assert Contents(lines)[1..] == Contents(lines[1..]);
      } else {
        assert Contents(lines) == Contents(lines[1..]);
      }
    }
  }

  /** Only what the lines say counts: blank lines, comment lines and trailing comments never change the result. */
  lemma OnlyContentsCount(raw: string, other: string)
    requires Contents(Split(raw, '\n')) == Contents(Split(other, '\n'))
    ensures Parse(raw) == Parse(other)
  {
    RunIsContents(Init(), Split(raw, '\n'));
    RunIsContents(Init(), Split(other, '\n'));
  }
}
