/** Block layouts: what the parser makes of an indented forest, and which layouts of a definition read back. */
module ExpertLayout {
  import opened Text
  import opened YamlLines
  import opened ExpertYaml

  /** Sibling lines, each section with its body `deeper` columns further in. */
  datatype Forest =
    | End
    | Scalar(key: string, text: string, rest: Forest)
    | Item(text: string, rest: Forest)
    | Section(key: string, deeper: nat, body: Forest, rest: Forest)

  function Lines(f: Forest, indent: nat): seq<string> {
    match f
    case End => []
    case Scalar(key, text, rest) => [Spaces(indent) + (key + ": " + text)] + Lines(rest, indent)
    case Item(text, rest) => [Spaces(indent) + ("- " + text)] + Lines(rest, indent)
    case Section(key, deeper, body, rest) =>
      [Spaces(indent) + (key + ":")] + (Lines(body, indent + deeper) + Lines(rest, indent))
  }

  predicate Readable(f: Forest) {
    match f
    case End => true
    case Scalar(key, text, rest) => KeyOk(key) && TextOk(text) && Unquote(text) != "" && Readable(rest)
    case Item(text, rest) => TextOk(text) && Readable(rest)
    case Section(key, deeper, body, rest) => KeyOk(key) && Readable(body) && Readable(rest)
  }

  /** What a forest says under a path: a section not indented deeper than its key says nothing of its own. */
  function Meaning(f: Forest, path: seq<string>, out: ExpertDefinition): ExpertDefinition {
    match f
    case End => out
    case Scalar(key, text, rest) => Meaning(rest, path, SetScalar(out, Dotted(path + [key]), Unquote(text)))
    case Item(text, rest) => Meaning(rest, path, AddItem(out, Dotted(path), Unquote(text)))
    case Section(key, deeper, body, rest) =>
      Meaning(rest, path, Meaning(body, if deeper > 0 then path + [key] else path, out))
  }

  ghost predicate AllDeeper(nodes: seq<PathNode>, indent: nat) {
    forall i :: 0 <= i < |nodes| ==> indent <= nodes[i].indent
  }

  ghost predicate AllShallower(nodes: seq<PathNode>, indent: nat) {
    forall i :: 0 <= i < |nodes| ==> nodes[i].indent < indent
  }

  lemma {:induction false} PopExtra(base: seq<PathNode>, extra: seq<PathNode>, indent: nat)
    requires AllShallower(base, indent) && AllDeeper(extra, indent)
    ensures PopTo(base + extra, indent) == base
  {
    if extra == [] {
      assert base + extra == base;
    } else {
      assert (base + extra)[..|base + extra| - 1] == base + extra[..|extra| - 1];
      PopExtra(base, extra[..|extra| - 1], indent);
    }
  }

  lemma {:induction false} RunConcat(st: State, a: seq<string>, b: seq<string>)
    ensures Run(st, a + b) == Run(Run(st, a), b)
    decreases |a|
  {
    if a == [] {
      assert a + b == b;
    } else {
      hide Step;
      assert (a + b)[1..] == a[1..] + b;
      RunConcat(Step(st, a[0]), a[1..], b);
    }
  }

  /** One written line, read after any lines deeper than it. */
  lemma StepLine(base: seq<PathNode>, extra: seq<PathNode>, indent: nat, text: string, out: ExpertDefinition)
    requires AllShallower(base, indent) && AllDeeper(extra, indent) && TextOk(text)
    ensures Step(State(base + extra, out), Spaces(indent) + text) == Apply(base, out, Content(indent, text))
  {
    ReadLine(indent, text);
    PopExtra(base, extra, indent);
    hide ContentOf, Apply, PopTo, TextOk;
  }

  lemma RunCons(st: State, line: string, lines: seq<string>)
    ensures Run(st, [line] + lines) == Run(Step(st, line), lines)
  {
    assert ([line] + lines)[1..] == lines;
  }

  lemma KeysPush(stack: seq<PathNode>, node: PathNode)
    ensures Keys(stack + [node]) == Keys(stack) + [node.key]
  {
    assert (stack + [node])[..|stack|] == stack;
  }

  lemma ScalarLine(base: seq<PathNode>, extra: seq<PathNode>, indent: nat, key: string, text: string, out: ExpertDefinition)
    requires AllShallower(base, indent) && AllDeeper(extra, indent) && KeyOk(key) && TextOk(text) && Unquote(text) != ""
    ensures Step(State(base + extra, out), Spaces(indent) + (key + ": " + text))
            == State(base, SetScalar(out, Dotted(Keys(base) + [key]), Unquote(text)))
  {
    KeyValueText(key, text);
    ReadKeyValue(key, text);
    StepLine(base, extra, indent, key + ": " + text, out);
    hide Step, SplitKeyValue, TextOk, KeyOk, SetScalar, HasPrefix, Dotted, Keys, Unquote;
  }

  lemma ItemLine(base: seq<PathNode>, extra: seq<PathNode>, indent: nat, text: string, out: ExpertDefinition)
    requires AllShallower(base, indent) && AllDeeper(extra, indent) && TextOk(text)
    ensures Step(State(base + extra, out), Spaces(indent) + ("- " + text))
            == State(base, AddItem(out, Dotted(Keys(base)), Unquote(text)))
  {
    ReadItem(text);
    StepLine(base, extra, indent, "- " + text, out);
    hide Step, AddItem, HasPrefix, TrimPrefix, Trim, Dotted, Keys, Unquote, StripComment, IsSpace;
  }

  lemma KeyLine(base: seq<PathNode>, extra: seq<PathNode>, indent: nat, key: string, out: ExpertDefinition)
    requires AllShallower(base, indent) && AllDeeper(extra, indent) && KeyOk(key)
    ensures Step(State(base + extra, out), Spaces(indent) + (key + ":")) == State(base + [PathNode(indent, key)], out)
  {
    ReadKey(key);
    StepLine(base, extra, indent, key + ":", out);
    hide Step, SplitKeyValue, TextOk, KeyOk, HasPrefix;
  }

  /** Reading the forest after `base` and `extra` leaves `base` and `left` open, and its meaning under `base`. */
  predicate Reads(f: Forest, indent: nat, base: seq<PathNode>, extra: seq<PathNode>, out: ExpertDefinition, left: seq<PathNode>) {
    Run(State(base + extra, out), Lines(f, indent)) == State(base + left, Meaning(f, Keys(base), out))
  }

  lemma EndReads(indent: nat, base: seq<PathNode>, extra: seq<PathNode>, out: ExpertDefinition)
    ensures Reads(End, indent, base, extra, out, extra)
  {}

  lemma ScalarReads(key: string, text: string, rest: Forest, indent: nat, base: seq<PathNode>, extra: seq<PathNode>,
                    out: ExpertDefinition, left: seq<PathNode>)
    requires AllShallower(base, indent) && AllDeeper(extra, indent) && KeyOk(key) && TextOk(text) && Unquote(text) != ""
    requires Reads(rest, indent, base, [], SetScalar(out, Dotted(Keys(base) + [key]), Unquote(text)), left)
    ensures Reads(Scalar(key, text, rest), indent, base, extra, out, left)
  {
    hide Step, Run, TextOk, KeyOk, Unquote, SetScalar, Keys, Dotted;
    RunCons(State(base + extra, out), Spaces(indent) + (key + ": " + text), Lines(rest, indent));
    ScalarLine(base, extra, indent, key, text, out);
    assert base + [] == base;
  }

  lemma ItemReads(text: string, rest: Forest, indent: nat, base: seq<PathNode>, extra: seq<PathNode>,
                  out: ExpertDefinition, left: seq<PathNode>)
    requires AllShallower(base, indent) && AllDeeper(extra, indent) && TextOk(text)
    requires Reads(rest, indent, base, [], AddItem(out, Dotted(Keys(base)), Unquote(text)), left)
    ensures Reads(Item(text, rest), indent, base, extra, out, left)
  {
    hide Step, Run, TextOk, Unquote, AddItem, Keys, Dotted;
    RunCons(State(base + extra, out), Spaces(indent) + ("- " + text), Lines(rest, indent));
    ItemLine(base, extra, indent, text, out);
    assert base + [] == base;
  }

  /** A body deeper than its key is read under that key; one that is not closes the key's section again. */
  lemma SectionReads(key: string, deeper: nat, body: Forest, rest: Forest, indent: nat, base: seq<PathNode>,
                     extra: seq<PathNode>, out: ExpertDefinition, deep: seq<PathNode>, left: seq<PathNode>)
    requires AllShallower(base, indent) && AllDeeper(extra, indent) && KeyOk(key)
    requires var node := PathNode(indent, key);
             if deeper > 0 then Reads(body, indent + deeper, base + [node], [], out, deep)
             else Reads(body, indent, base, [node], out, deep)
    requires Reads(rest, indent, base, if deeper > 0 then [PathNode(indent, key)] + deep else deep,
                   Meaning(body, if deeper > 0 then Keys(base) + [key] else Keys(base), out), left)
    ensures Reads(Section(key, deeper, body, rest), indent, base, extra, out, left)
  {
    hide Step, Run, KeyOk, Keys;
    var node, inner := PathNode(indent, key), Lines(body, indent + deeper);
    RunCons(State(base + extra, out), Spaces(indent) + (key + ":"), inner + Lines(rest, indent));
    KeyLine(base, extra, indent, key, out);
    RunConcat(State(base + [node], out), inner, Lines(rest, indent));
    if deeper > 0 {
      KeysPush(base, node);
      assert base + [node] + [] == base + [node] && base + [node] + deep == base + ([node] + deep);
    }
  }

  /** The parser gives a forest its meaning, whatever deeper sections were left open before it. */
  lemma {:induction false} ParseForest(f: Forest, indent: nat, base: seq<PathNode>, extra: seq<PathNode>, out: ExpertDefinition)
    returns (left: seq<PathNode>)
    requires Readable(f) && AllShallower(base, indent) && AllDeeper(extra, indent)
    ensures AllDeeper(left, indent) && Reads(f, indent, base, extra, out, left)
  {
    left := extra;
    EndReads(indent, base, extra, out);
    hide Reads, Run, Lines, Meaning, TextOk, KeyOk, Unquote, SetScalar, AddItem, Keys, Dotted;
    match f
    case End =>
    case Scalar(key, text, rest) =>
      left := ParseForest(rest, indent, base, [], SetScalar(out, Dotted(Keys(base) + [key]), Unquote(text)));
      ScalarReads(key, text, rest, indent, base, extra, out, left);
    case Item(text, rest) =>
      left := ParseForest(rest, indent, base, [], AddItem(out, Dotted(Keys(base)), Unquote(text)));
      ItemReads(text, rest, indent, base, extra, out, left);
    case Section(key, deeper, body, rest) =>
      var node := PathNode(indent, key);
      var deep;
      if deeper > 0 {
        deep := ParseForest(body, indent + deeper, base + [node], [], out);
      } else {
        deep := ParseForest(body, indent, base, [node], out);
      }
      left := ParseForest(rest, indent, base, if deeper > 0 then [node] + deep else deep,
                          Meaning(body, if deeper > 0 then Keys(base) + [key] else Keys(base), out));
      SectionReads(key, deeper, body, rest, indent, base, extra, out, deep, left);
  }

  // ---- the block layout of a definition --------------------------------------------------------

  /** A text field; the empty one has no line. */
  function TextField(key: string, value: string, rest: Forest): Forest {
    if value == "" then rest else Scalar(key, Written(value), rest)
  }

  function ItemLines(items: seq<string>): Forest {
    if items == [] then End else Item(Written(items[0]), ItemLines(items[1..]))
  }

  /** How much deeper than its key each section's body is. */
  type Layout = string -> nat

  function MetadataLines(m: Metadata): Forest {
    TextField("expert_id", m.expertID, TextField("expert_name", m.expertName, TextField("expert_type", m.expertType,
      TextField("version", m.version, TextField("owner", m.owner, TextField("description", m.description, End))))))
  }

  function RoutingLines(r: Routing, deeper: Layout): Forest {
    Scalar("priority", Itoa(r.priority), Section("tags", deeper("tags"), ItemLines(r.tags), End))
  }

  function RuntimeLines(r: Runtime): Forest {
    TextField("mode", r.mode, TextField("entrypoint", r.entrypoint,
      Scalar("timeout_seconds", Itoa(r.timeoutSeconds), Scalar("max_concurrency", Itoa(r.maxConcurrency), End))))
  }

  function InputsLines(accepts: seq<string>, deeper: Layout): Forest {
    Section("accepts", deeper("accepts"), ItemLines(accepts), End)
  }

  function OutputsLines(o: Outputs): Forest {
    TextField("result_schema", o.resultSchema, TextField("evidence_mode", o.evidenceMode, End))
  }

  function EndLines(s: Spec, deeper: Layout): Forest {
    Section("inputs", deeper("inputs"), InputsLines(s.accepts, deeper),
    Section("outputs", deeper("outputs"), OutputsLines(s.outputs), End))
  }

  function SpecLines(s: Spec, deeper: Layout): Forest {
    Scalar("enabled", Bool(s.enabled),
      Section("capabilities", deeper("capabilities"), ItemLines(s.capabilities),
      Section("routing", deeper("routing"), RoutingLines(s.routing, deeper),
      Section("runtime", deeper("runtime"), RuntimeLines(s.runtime), EndLines(s, deeper)))))
  }

  function DefinitionLines(def: ExpertDefinition, deeper: Layout): Forest {
    TextField("api_version", def.apiVersion, TextField("kind", def.kind,
      Section("metadata", deeper("metadata"), MetadataLines(def.metadata),
      Section("spec", deeper("spec"), SpecLines(def.spec, deeper), End))))
  }

  predicate IsInt64(n: int) {
    -MAX_INT64 - 1 <= n <= MAX_INT64
  }

  ghost predicate AllWritable(items: seq<string>) {
    forall i :: 0 <= i < |items| ==> Writable(items[i])
  }

  ghost predicate DefinitionOk(def: ExpertDefinition) {
    var m, s := def.metadata, def.spec;
    && Writable(def.apiVersion) && Writable(def.kind)
    && Writable(m.expertID) && Writable(m.expertName) && Writable(m.expertType) && Writable(m.version)
    && Writable(m.owner) && Writable(m.description)
    && AllWritable(s.capabilities) && AllWritable(s.routing.tags) && AllWritable(s.accepts)
    && IsInt64(s.routing.priority) && IsInt64(s.runtime.timeoutSeconds) && IsInt64(s.runtime.maxConcurrency)
    && Writable(s.runtime.mode) && Writable(s.runtime.entrypoint)
    && Writable(s.outputs.resultSchema) && Writable(s.outputs.evidenceMode)
  }

  /** Every section that is not a list is deeper than its key. */
  predicate SectionsDeeper(deeper: Layout) {
    && deeper("metadata") > 0 && deeper("spec") > 0 && deeper("routing") > 0
    && deeper("runtime") > 0 && deeper("inputs") > 0 && deeper("outputs") > 0
  }

  /** Every list with something in it is deeper than its key. */
  predicate ListsDeeper(def: ExpertDefinition, deeper: Layout) {
    && (def.spec.capabilities != [] ==> deeper("capabilities") > 0)
    && (def.spec.routing.tags != [] ==> deeper("tags") > 0)
    && (def.spec.accepts != [] ==> deeper("accepts") > 0)
  }

  // ---- dotted paths --------------------------------------------------------------------------------

  lemma Dotted1(a: string)
    ensures Dotted([] + [a]) == a
  {}

  lemma Dotted2(a: string, b: string)
    ensures Dotted([a] + [b]) == a + "." + b
  {
    JoinCons(a, [b], ".");
  }

  lemma Dotted3(a: string, b: string, c: string)
    ensures Dotted([a, b] + [c]) == a + "." + (b + "." + c)
  {
    assert [a, b] + [c] == [a] + ([b] + [c]);
    JoinCons(a, [b] + [c], ".");
    JoinCons(b, [c], ".");
  }

  /** Where each field's line stands. */
  function PathTo(slot: Slot): seq<string> {
    match slot
    case ApiVersion | Kind => []
    case ExpertID | ExpertName | ExpertType | Version | Owner | Description => ["metadata"]
    case Enabled => ["spec"]
    case Priority => ["spec", "routing"]
    case Mode | Entrypoint | Timeout | Concurrency => ["spec", "runtime"]
    case ResultSchema | EvidenceMode => ["spec", "outputs"]
  }

  function KeyTo(slot: Slot): string {
    match slot
    case ApiVersion => "api_version"
    case Kind => "kind"
    case ExpertID => "expert_id"
    case ExpertName => "expert_name"
    case ExpertType => "expert_type"
    case Version => "version"
    case Owner => "owner"
    case Description => "description"
    case Enabled => "enabled"
    case Priority => "priority"
    case Mode => "mode"
    case Entrypoint => "entrypoint"
    case Timeout => "timeout_seconds"
    case Concurrency => "max_concurrency"
    case ResultSchema => "result_schema"
    case EvidenceMode => "evidence_mode"
  }

  lemma MetadataTexts()
    ensures "metadata" + "." + "expert_id" == "metadata.expert_id"
    ensures "metadata" + "." + "expert_name" == "metadata.expert_name"
    ensures "metadata" + "." + "expert_type" == "metadata.expert_type"
  {}

  lemma MoreMetadataTexts()
    ensures "metadata" + "." + "version" == "metadata.version"
    ensures "metadata" + "." + "owner" == "metadata.owner"
    ensures "metadata" + "." + "description" == "metadata.description"
    ensures "spec" + "." + "enabled" == "spec.enabled"
  {}

  lemma RuntimeTexts()
    ensures "spec" + "." + ("runtime" + "." + "mode") == "spec.runtime.mode"
    ensures "spec" + "." + ("runtime" + "." + "entrypoint") == "spec.runtime.entrypoint"
  {}

  lemma MoreRuntimeTexts()
    ensures "spec" + "." + ("runtime" + "." + "timeout_seconds") == "spec.runtime.timeout_seconds"
    ensures "spec" + "." + ("runtime" + "." + "max_concurrency") == "spec.runtime.max_concurrency"
  {}

  lemma OutputsTexts()
    ensures "spec" + "." + ("outputs" + "." + "result_schema") == "spec.outputs.result_schema"
    ensures "spec" + "." + ("outputs" + "." + "evidence_mode") == "spec.outputs.evidence_mode"
    ensures "spec" + "." + ("routing" + "." + "priority") == "spec.routing.priority"
  {}

  lemma ListTexts()
    ensures "spec" + "." + "capabilities" == "spec.capabilities"
    ensures "spec" + "." + "routing" == "spec.routing"
    ensures "spec" + "." + "inputs" == "spec.inputs"
    ensures "spec" + "." + ("routing" + "." + "tags") == "spec.routing.tags"
    ensures "spec" + "." + ("inputs" + "." + "accepts") == "spec.inputs.accepts"
  {}

  lemma SlotDotted(slot: Slot)
    ensures Dotted(PathTo(slot) + [KeyTo(slot)]) == SlotPath(slot)
  {
    var path, key := PathTo(slot), KeyTo(slot);
    if |path| == 0 {
      Dotted1(key);
    } else if |path| == 1 {
      Dotted2(path[0], key);
      MetadataTexts();
      MoreMetadataTexts();
    } else {
      assert path == [path[0], path[1]];
      Dotted3(path[0], path[1], key);
      RuntimeTexts();
      MoreRuntimeTexts();
      OutputsTexts();
    }
    hide Dotted;
  }

  lemma SlotPathsDiffer(s: Slot, t: Slot)
    requires s != t
    ensures SlotPath(s) != SlotPath(t)
  {
    assert "metadata.expert_name"[16] == 'n' && "metadata.expert_type"[16] == 't' && "metadata.description"[9] == 'd';
    assert "metadata.expert_name"[9] == 'e' && "metadata.expert_type"[9] == 'e';
    assert "spec.runtime.timeout_seconds"[13] == 't' && "spec.runtime.max_concurrency"[13] == 'm';
    assert "spec.outputs.result_schema"[13] == 'r' && "spec.outputs.evidence_mode"[13] == 'e';
  }

  lemma {:induction false} SlotFromPath(slot: Slot, i: nat, j: nat)
    requires i <= j < |SLOTS| && SLOTS[j] == slot && forall k :: i <= k < j ==> SLOTS[k] != slot
    ensures SlotFrom(SlotPath(slot), i) == Some(slot)
    decreases j - i
  {
    hide SlotPath;
    if i < j {
      SlotPathsDiffer(SLOTS[i], slot);
      SlotFromPath(slot, i + 1, j);
    }
  }

  function SlotIndex(slot: Slot): (i: nat)
    ensures i < |SLOTS| && SLOTS[i] == slot && forall k :: 0 <= k < i ==> SLOTS[k] != slot
  {
    match slot
    case ApiVersion => 0
    case Kind => 1
    case ExpertID => 2
    case ExpertName => 3
    case ExpertType => 4
    case Version => 5
    case Owner => 6
    case Description => 7
    case Enabled => 8
    case Priority => 9
    case Mode => 10
    case Entrypoint => 11
    case Timeout => 12
    case Concurrency => 13
    case ResultSchema => 14
    case EvidenceMode => 15
  }

  // ---- what each part of the layout means -------------------------------------------------------------

  lemma ScalarMeaning(slot: Slot, text: string, rest: Forest, out: ExpertDefinition)
    ensures Meaning(Scalar(KeyTo(slot), text, rest), PathTo(slot), out)
            == Meaning(rest, PathTo(slot), SetSlot(out, slot, Unquote(text)))
  {
    SlotDotted(slot);
    SlotFromPath(slot, 0, SlotIndex(slot));
    hide SlotPath, SetSlot, Unquote, Dotted, SlotFrom, KeyTo, PathTo;
  }

  lemma TextMeaning(slot: Slot, value: string, rest: Forest, out: ExpertDefinition)
    requires Writable(value) && SetSlot(out, slot, "") == out
    ensures Meaning(TextField(KeyTo(slot), value, rest), PathTo(slot), out)
            == Meaning(rest, PathTo(slot), SetSlot(out, slot, value))
  {
    ScalarMeaning(slot, Written(value), rest, out);
    ReadWritten(value);
    hide Meaning, SetSlot, Unquote, KeyTo, PathTo, Written, Writable, TextOk;
  }

  lemma NumberText(n: int)
    ensures TextOk(Itoa(n)) && Unquote(Itoa(n)) == Itoa(n)
  {
    var s := Itoa(n);
    assert forall i :: 0 <= i < |s| ==> !IsSpace(s[i]);
    StripPlain(s, "");
    assert s + "" == s;
    TrimOfBare(s, IsSpace);
  }

  function SetNumber(out: ExpertDefinition, slot: Slot, n: int): ExpertDefinition {
    var s := out.spec;
    match slot
    case Priority => out.(spec := s.(routing := s.routing.(priority := n)))
    case Timeout => out.(spec := s.(runtime := s.runtime.(timeoutSeconds := n)))
    case Concurrency => out.(spec := s.(runtime := s.runtime.(maxConcurrency := n)))
    case _ => out
  }

  lemma NumberMeaning(slot: Slot, n: int, rest: Forest, out: ExpertDefinition)
    requires slot in {Priority, Timeout, Concurrency} && IsInt64(n)
    ensures Meaning(Scalar(KeyTo(slot), Itoa(n), rest), PathTo(slot), out)
            == Meaning(rest, PathTo(slot), SetNumber(out, slot, n))
  {
    ScalarMeaning(slot, Itoa(n), rest, out);
    NumberText(n);
    ParseItoa(n);
    hide Meaning, Unquote, KeyTo, PathTo, Itoa, TextOk, ParseInt;
  }

  function AddItems(out: ExpertDefinition, path: string, items: seq<string>): ExpertDefinition
    decreases |items|
  {
    if items == [] then out else AddItems(AddItem(out, path, items[0]), path, items[1..])
  }

  lemma {:induction false} ItemsMeaning(items: seq<string>, path: seq<string>, out: ExpertDefinition)
    requires AllWritable(items)
    ensures Meaning(ItemLines(items), path, out) == AddItems(out, Dotted(path), items)
    decreases |items|
  {
    hide AddItem, Unquote, Written, Dotted, Writable, TextOk;
    if items != [] {
      ReadWritten(items[0]);
      ItemsMeaning(items[1..], path, AddItem(out, Dotted(path), items[0]));
    }
  }

  function WithCapabilities(out: ExpertDefinition, items: seq<string>): ExpertDefinition {
    out.(spec := out.spec.(capabilities := items))
  }

  function WithTags(out: ExpertDefinition, items: seq<string>): ExpertDefinition {
    out.(spec := out.spec.(routing := out.spec.routing.(tags := items)))
  }

  function WithAccepts(out: ExpertDefinition, items: seq<string>): ExpertDefinition {
    out.(spec := out.spec.(accepts := items))
  }

  lemma ListPathsDiffer()
    ensures "spec.capabilities" != "spec.routing.tags" && "spec.capabilities" != "spec.inputs.accepts"
    ensures "spec.routing.tags" != "spec.inputs.accepts"
    ensures "spec" !in LISTS && "spec.routing" !in LISTS && "spec.inputs" !in LISTS
  {
    assert "spec.capabilities"[5] == 'c' && "spec.routing.tags"[5] == 'r';
  }

  const LISTS := ["spec.capabilities", "spec.routing.tags", "spec.inputs.accepts"]

  lemma {:induction false} AddItemsMeaning(out: ExpertDefinition, path: string, items: seq<string>)
    ensures path == "spec.capabilities" ==>
              AddItems(out, path, items) == WithCapabilities(out, out.spec.capabilities + items)
    ensures path == "spec.routing.tags" ==>
              AddItems(out, path, items) == WithTags(out, out.spec.routing.tags + items)
    ensures path == "spec.inputs.accepts" ==>
              AddItems(out, path, items) == WithAccepts(out, out.spec.accepts + items)
    ensures path !in LISTS ==> AddItems(out, path, items) == out
    decreases |items|
  {
    ListPathsDiffer();
    if items == [] {
      assert out.spec.capabilities + items == out.spec.capabilities;
      assert out.spec.routing.tags + items == out.spec.routing.tags;
      assert out.spec.accepts + items == out.spec.accepts;
    } else {
      var next := AddItem(out, path, items[0]);
      AddItemsMeaning(next, path, items[1..]);
      assert out.spec.capabilities + items == (out.spec.capabilities + [items[0]]) + items[1..];
      assert out.spec.routing.tags + items == (out.spec.routing.tags + [items[0]]) + items[1..];
      assert out.spec.accepts + items == (out.spec.accepts + [items[0]]) + items[1..];
    }
  }

  lemma MetadataMeaning(m: Metadata, out: ExpertDefinition)
    requires Writable(m.expertID) && Writable(m.expertName) && Writable(m.expertType) && Writable(m.version)
    requires Writable(m.owner) && Writable(m.description)
    requires out.metadata == Zero().metadata
    ensures Meaning(MetadataLines(m), ["metadata"], out) == out.(metadata := m)
  {
    hide Meaning, Writable, TextField;
    var f5 := TextField("description", m.description, End);
    var f4 := TextField("owner", m.owner, f5);
    var f3 := TextField("version", m.version, f4);
    var f2 := TextField("expert_type", m.expertType, f3);
    var f1 := TextField("expert_name", m.expertName, f2);
    TextMeaning(ExpertID, m.expertID, f1, out);
    var o1 := SetSlot(out, ExpertID, m.expertID);
    TextMeaning(ExpertName, m.expertName, f2, o1);
    var o2 := SetSlot(o1, ExpertName, m.expertName);
    TextMeaning(ExpertType, m.expertType, f3, o2);
    var o3 := SetSlot(o2, ExpertType, m.expertType);
    TextMeaning(Version, m.version, f4, o3);
    var o4 := SetSlot(o3, Version, m.version);
    TextMeaning(Owner, m.owner, f5, o4);
    var o5 := SetSlot(o4, Owner, m.owner);
    TextMeaning(Description, m.description, End, o5);
    EndMeaning(["metadata"], SetSlot(o5, Description, m.description));
  }

  lemma EndMeaning(path: seq<string>, out: ExpertDefinition)
    ensures Meaning(End, path, out) == out
  {}

  lemma SectionMeaning(key: string, deeper: nat, body: Forest, rest: Forest, path: seq<string>, out: ExpertDefinition)
    ensures Meaning(Section(key, deeper, body, rest), path, out)
            == Meaning(rest, path, Meaning(body, if deeper > 0 then path + [key] else path, out))
  {}

  /** What the parser keeps of a list: all of it, or none when it is not deeper than its key. */
  function KeptList(items: seq<string>, deeper: nat): seq<string> {
    if deeper > 0 then items else []
  }

  lemma RoutingMeaning(r: Routing, deeper: Layout, out: ExpertDefinition)
    requires AllWritable(r.tags) && IsInt64(r.priority) && out.spec.routing.tags == []
    ensures Meaning(RoutingLines(r, deeper), ["spec", "routing"], out)
            == out.(spec := out.spec.(routing := Routing(r.priority, KeptList(r.tags, deeper("tags")))))
  {
    var path := ["spec", "routing"];
    var o1 := SetNumber(out, Priority, r.priority);
    ListTexts();
    ListPathsDiffer();
    Dotted2("spec", "routing");
    Dotted3("spec", "routing", "tags");
    assert ["spec"] + ["routing"] == path;
    hide Meaning, AllWritable, Dotted, Itoa;
    NumberMeaning(Priority, r.priority, Section("tags", deeper("tags"), ItemLines(r.tags), End), out);
    SectionMeaning("tags", deeper("tags"), ItemLines(r.tags), End, path, o1);
    var at := if deeper("tags") > 0 then path + ["tags"] else path;
    ItemsMeaning(r.tags, at, o1);
    AddItemsMeaning(o1, Dotted(at), r.tags);
    EndMeaning(path, AddItems(o1, Dotted(at), r.tags));
    assert [] + r.tags == r.tags;
  }

  lemma RuntimeMeaning(r: Runtime, out: ExpertDefinition)
    requires Writable(r.mode) && Writable(r.entrypoint) && IsInt64(r.timeoutSeconds) && IsInt64(r.maxConcurrency)
    requires out.spec.runtime == Zero().spec.runtime
    ensures Meaning(RuntimeLines(r), ["spec", "runtime"], out) == out.(spec := out.spec.(runtime := r))
  {
    hide Meaning, Writable, TextField, Itoa;
    var f3 := Scalar("max_concurrency", Itoa(r.maxConcurrency), End);
    var f2 := Scalar("timeout_seconds", Itoa(r.timeoutSeconds), f3);
    var f1 := TextField("entrypoint", r.entrypoint, f2);
    TextMeaning(Mode, r.mode, f1, out);
    var o1 := SetSlot(out, Mode, r.mode);
    TextMeaning(Entrypoint, r.entrypoint, f2, o1);
    var o2 := SetSlot(o1, Entrypoint, r.entrypoint);
    NumberMeaning(Timeout, r.timeoutSeconds, f3, o2);
    var o3 := SetNumber(o2, Timeout, r.timeoutSeconds);
    NumberMeaning(Concurrency, r.maxConcurrency, End, o3);
    EndMeaning(["spec", "runtime"], SetNumber(o3, Concurrency, r.maxConcurrency));
  }

  lemma InputsMeaning(accepts: seq<string>, deeper: Layout, out: ExpertDefinition)
    requires AllWritable(accepts) && out.spec.accepts == []
    ensures Meaning(InputsLines(accepts, deeper), ["spec", "inputs"], out)
            == WithAccepts(out, KeptList(accepts, deeper("accepts")))
  {
    var path := ["spec", "inputs"];
    ListTexts();
    ListPathsDiffer();
    Dotted2("spec", "inputs");
    Dotted3("spec", "inputs", "accepts");
    assert ["spec"] + ["inputs"] == path;
    hide Meaning, AllWritable, Dotted;
    SectionMeaning("accepts", deeper("accepts"), ItemLines(accepts), End, path, out);
    var at := if deeper("accepts") > 0 then path + ["accepts"] else path;
    ItemsMeaning(accepts, at, out);
    AddItemsMeaning(out, Dotted(at), accepts);
    EndMeaning(path, AddItems(out, Dotted(at), accepts));
    assert [] + accepts == accepts;
  }

  lemma OutputsMeaning(o: Outputs, out: ExpertDefinition)
    requires Writable(o.resultSchema) && Writable(o.evidenceMode) && out.spec.outputs == Zero().spec.outputs
    ensures Meaning(OutputsLines(o), ["spec", "outputs"], out) == out.(spec := out.spec.(outputs := o))
  {
    hide Meaning, Writable, TextField;
    var f1 := TextField("evidence_mode", o.evidenceMode, End);
    TextMeaning(ResultSchema, o.resultSchema, f1, out);
    var o1 := SetSlot(out, ResultSchema, o.resultSchema);
    TextMeaning(EvidenceMode, o.evidenceMode, End, o1);
    EndMeaning(["spec", "outputs"], SetSlot(o1, EvidenceMode, o.evidenceMode));
  }

  lemma CapabilitiesMeaning(items: seq<string>, deeper: nat, rest: Forest, out: ExpertDefinition)
    requires AllWritable(items) && out.spec.capabilities == []
    ensures Meaning(Section("capabilities", deeper, ItemLines(items), rest), ["spec"], out)
            == Meaning(rest, ["spec"], WithCapabilities(out, KeptList(items, deeper)))
  {
    ListTexts();
    ListPathsDiffer();
    Dotted1("spec");
    Dotted2("spec", "capabilities");
    assert [] + ["spec"] == ["spec"];
    hide Meaning, AllWritable, Dotted;
    SectionMeaning("capabilities", deeper, ItemLines(items), rest, ["spec"], out);
    var at := if deeper > 0 then ["spec"] + ["capabilities"] else ["spec"];
    ItemsMeaning(items, at, out);
    AddItemsMeaning(out, Dotted(at), items);
    assert [] + items == items;
  }

  // ---- reading a layout back ------------------------------------------------------------------------------

  /** What the parser keeps of a definition whose lists are laid out so. */
  function Kept(def: ExpertDefinition, deeper: Layout): ExpertDefinition {
    var s := def.spec;
    def.(spec := s.(capabilities := KeptList(s.capabilities, deeper("capabilities")),
                    routing := s.routing.(tags := KeptList(s.routing.tags, deeper("tags"))),
                    accepts := KeptList(s.accepts, deeper("accepts"))))
  }

  lemma SubsectionMeaning(key: string, deeper: nat, body: Forest, rest: Forest, out: ExpertDefinition)
    requires deeper > 0
    ensures Meaning(Section(key, deeper, body, rest), ["spec"], out)
            == Meaning(rest, ["spec"], Meaning(body, ["spec", key], out))
  {
    assert ["spec"] + [key] == ["spec", key];
  }

  lemma EnabledMeaning(b: bool, rest: Forest, out: ExpertDefinition)
    ensures Meaning(Scalar("enabled", Bool(b), rest), ["spec"], out)
            == Meaning(rest, ["spec"], out.(spec := out.spec.(enabled := b)))
  {
    ScalarMeaning(Enabled, Bool(b), rest, out);
    BoolText(b);
    hide Meaning, Lower, ParseBool, Bool, Unquote, TextOk;
  }

  lemma SpecEndMeaning(def: ExpertDefinition, deeper: Layout, out: ExpertDefinition)
    requires DefinitionOk(def) && SectionsDeeper(deeper)
    requires out.spec.accepts == [] && out.spec.outputs == Zero().spec.outputs
    ensures Meaning(EndLines(def.spec, deeper), ["spec"], out)
            == out.(spec := out.spec.(accepts := Kept(def, deeper).spec.accepts, outputs := def.spec.outputs))
  {
    hide Meaning, Writable, AllWritable, InputsLines, OutputsLines;
    var s := def.spec;
    var f5 := Section("outputs", deeper("outputs"), OutputsLines(s.outputs), End);
    SubsectionMeaning("inputs", deeper("inputs"), InputsLines(s.accepts, deeper), f5, out);
    InputsMeaning(s.accepts, deeper, out);
    var o5 := WithAccepts(out, KeptList(s.accepts, deeper("accepts")));
    SubsectionMeaning("outputs", deeper("outputs"), OutputsLines(s.outputs), End, o5);
    OutputsMeaning(s.outputs, o5);
    EndMeaning(["spec"], o5.(spec := o5.spec.(outputs := s.outputs)));
  }

  lemma SpecMeaning(def: ExpertDefinition, deeper: Layout, out: ExpertDefinition)
    requires DefinitionOk(def) && SectionsDeeper(deeper) && out.spec == Zero().spec
    ensures Meaning(SpecLines(def.spec, deeper), ["spec"], out) == out.(spec := Kept(def, deeper).spec)
  {
    hide Meaning, Writable, AllWritable, RoutingLines, RuntimeLines, EndLines, ItemLines, Bool;
    var s := def.spec;
    var o1 := out.(spec := out.spec.(enabled := s.enabled));
    var f4 := EndLines(s, deeper);
    var f3 := Section("runtime", deeper("runtime"), RuntimeLines(s.runtime), f4);
    var f2 := Section("routing", deeper("routing"), RoutingLines(s.routing, deeper), f3);
    EnabledMeaning(s.enabled, Section("capabilities", deeper("capabilities"), ItemLines(s.capabilities), f2), out);
    CapabilitiesMeaning(s.capabilities, deeper("capabilities"), f2, o1);
    var o2 := WithCapabilities(o1, KeptList(s.capabilities, deeper("capabilities")));
    SubsectionMeaning("routing", deeper("routing"), RoutingLines(s.routing, deeper), f3, o2);
    RoutingMeaning(s.routing, deeper, o2);
    var o3 := o2.(spec := o2.spec.(routing := Kept(def, deeper).spec.routing));
    SubsectionMeaning("runtime", deeper("runtime"), RuntimeLines(s.runtime), f4, o3);
    RuntimeMeaning(s.runtime, o3);
    SpecEndMeaning(def, deeper, o3.(spec := o3.spec.(runtime := s.runtime)));
  }

  lemma DefinitionMeaning(def: ExpertDefinition, deeper: Layout)
    requires DefinitionOk(def) && SectionsDeeper(deeper)
    ensures Meaning(DefinitionLines(def, deeper), [], Zero()) == Kept(def, deeper)
  {
    assert [] + ["metadata"] == ["metadata"] && [] + ["spec"] == ["spec"];
    var f2 := Section("spec", deeper("spec"), SpecLines(def.spec, deeper), End);
    var f1 := Section("metadata", deeper("metadata"), MetadataLines(def.metadata), f2);
    var o2 := Zero().(apiVersion := def.apiVersion, kind := def.kind);
    var o3 := o2.(metadata := def.metadata);
    MetadataMeaning(def.metadata, o2);
    SpecMeaning(def, deeper, o3);
    hide Meaning, Writable, MetadataLines, SpecLines, TextField, AllWritable;
    TextMeaning(ApiVersion, def.apiVersion, TextField("kind", def.kind, f1), Zero());
    TextMeaning(Kind, def.kind, f1, Zero().(apiVersion := def.apiVersion));
    SectionMeaning("metadata", deeper("metadata"), MetadataLines(def.metadata), f2, [], o2);
    SectionMeaning("spec", deeper("spec"), SpecLines(def.spec, deeper), End, [], o3);
    EndMeaning([], o3.(spec := Kept(def, deeper).spec));
  }

  lemma TextFieldReadable(key: string, value: string, rest: Forest)
    requires KeyOk(key) && Writable(value) && Readable(rest)
    ensures Readable(TextField(key, value, rest))
  {
    ReadWritten(value);
  }

  lemma {:induction false} ItemLinesReadable(items: seq<string>)
    requires AllWritable(items)
    ensures Readable(ItemLines(items))
  {
    if items != [] {
      ReadWritten(items[0]);
      hide Writable, TextOk, Written;
      ItemLinesReadable(items[1..]);
    }
  }

  lemma ScalarReadable(key: string, n: int, rest: Forest)
    requires KeyOk(key) && Readable(rest)
    ensures Readable(Scalar(key, Itoa(n), rest))
  {
    NumberText(n);
  }

  lemma MetadataReadable(m: Metadata)
    requires Writable(m.expertID) && Writable(m.expertName) && Writable(m.expertType) && Writable(m.version)
    requires Writable(m.owner) && Writable(m.description)
    ensures Readable(MetadataLines(m))
  {
    hide Writable, KeyOk, TextField;
    PlainKey("expert_id");
    PlainKey("expert_name");
    PlainKey("expert_type");
    PlainKey("version");
    PlainKey("owner");
    PlainKey("description");
    var f5 := TextField("description", m.description, End);
    var f4 := TextField("owner", m.owner, f5);
    var f3 := TextField("version", m.version, f4);
    var f2 := TextField("expert_type", m.expertType, f3);
    TextFieldReadable("description", m.description, End);
    TextFieldReadable("owner", m.owner, f5);
    TextFieldReadable("version", m.version, f4);
    TextFieldReadable("expert_type", m.expertType, f3);
    TextFieldReadable("expert_name", m.expertName, f2);
    TextFieldReadable("expert_id", m.expertID, TextField("expert_name", m.expertName, f2));
  }

  lemma RoutingReadable(r: Routing, deeper: Layout)
    requires AllWritable(r.tags)
    ensures Readable(RoutingLines(r, deeper))
  {
    PlainKey("priority");
    PlainKey("tags");
    ItemLinesReadable(r.tags);
    hide KeyOk, AllWritable, ItemLines;
    ScalarReadable("priority", r.priority, Section("tags", deeper("tags"), ItemLines(r.tags), End));
  }

  lemma RuntimeReadable(r: Runtime)
    requires Writable(r.mode) && Writable(r.entrypoint)
    ensures Readable(RuntimeLines(r))
  {
    PlainKey("mode");
    PlainKey("entrypoint");
    PlainKey("timeout_seconds");
    PlainKey("max_concurrency");
    hide KeyOk, Writable, TextField;
    var f2 := Scalar("max_concurrency", Itoa(r.maxConcurrency), End);
    var f1 := Scalar("timeout_seconds", Itoa(r.timeoutSeconds), f2);
    ScalarReadable("max_concurrency", r.maxConcurrency, End);
    ScalarReadable("timeout_seconds", r.timeoutSeconds, f2);
    TextFieldReadable("entrypoint", r.entrypoint, f1);
    TextFieldReadable("mode", r.mode, TextField("entrypoint", r.entrypoint, f1));
  }

  lemma OutputsReadable(o: Outputs)
    requires Writable(o.resultSchema) && Writable(o.evidenceMode)
    ensures Readable(OutputsLines(o))
  {
    PlainKey("result_schema");
    PlainKey("evidence_mode");
    hide KeyOk, Writable, TextField;
    TextFieldReadable("evidence_mode", o.evidenceMode, End);
    TextFieldReadable("result_schema", o.resultSchema, TextField("evidence_mode", o.evidenceMode, End));
  }

  lemma SectionReadable(key: string, deeper: nat, body: Forest, rest: Forest)
    requires KeyOk(key) && Readable(body) && Readable(rest)
    ensures Readable(Section(key, deeper, body, rest))
  {}

  lemma BoolReadable(key: string, b: bool, rest: Forest)
    requires KeyOk(key) && Readable(rest)
    ensures Readable(Scalar(key, Bool(b), rest))
  {
    BoolText(b);
    assert Bool(b) != "";
    hide TextOk, KeyOk, Unquote, Lower;
  }

  lemma SpecKeys()
    ensures KeyOk("enabled") && KeyOk("capabilities") && KeyOk("routing") && KeyOk("runtime")
    ensures KeyOk("inputs") && KeyOk("accepts") && KeyOk("outputs")
  {
    hide KeyOk;
    PlainKey("enabled");
    PlainKey("capabilities");
    PlainKey("routing");
    PlainKey("runtime");
    PlainKey("inputs");
    PlainKey("accepts");
    PlainKey("outputs");
  }

  lemma SpecReadable(def: ExpertDefinition, deeper: Layout)
    requires DefinitionOk(def)
    ensures Readable(SpecLines(def.spec, deeper))
  {
    hide KeyOk, Writable, AllWritable, ItemLines, RoutingLines, RuntimeLines, OutputsLines, Bool;
    var s := def.spec;
    SpecKeys();
    ItemLinesReadable(s.capabilities);
    ItemLinesReadable(s.accepts);
    RoutingReadable(s.routing, deeper);
    RuntimeReadable(s.runtime);
    OutputsReadable(s.outputs);
    assert Readable(End);
    hide Readable;
    var f5 := Section("outputs", deeper("outputs"), OutputsLines(s.outputs), End);
    var f4 := Section("inputs", deeper("inputs"), InputsLines(s.accepts, deeper), f5);
    var f3 := Section("runtime", deeper("runtime"), RuntimeLines(s.runtime), f4);
    var f2 := Section("routing", deeper("routing"), RoutingLines(s.routing, deeper), f3);
    var f1 := Section("capabilities", deeper("capabilities"), ItemLines(s.capabilities), f2);
    SectionReadable("outputs", deeper("outputs"), OutputsLines(s.outputs), End);
    SectionReadable("accepts", deeper("accepts"), ItemLines(s.accepts), End);
    SectionReadable("inputs", deeper("inputs"), InputsLines(s.accepts, deeper), f5);
    SectionReadable("runtime", deeper("runtime"), RuntimeLines(s.runtime), f4);
    SectionReadable("routing", deeper("routing"), RoutingLines(s.routing, deeper), f3);
    SectionReadable("capabilities", deeper("capabilities"), ItemLines(s.capabilities), f2);
    BoolReadable("enabled", s.enabled, f1);
  }

  lemma DefinitionReadable(def: ExpertDefinition, deeper: Layout)
    requires DefinitionOk(def)
    ensures Readable(DefinitionLines(def, deeper))
  {
    hide KeyOk;
    PlainKey("api_version");
    PlainKey("kind");
    PlainKey("metadata");
    PlainKey("spec");
    MetadataReadable(def.metadata);
    SpecReadable(def, deeper);
    hide Writable, AllWritable, MetadataLines, SpecLines, TextField;
    var f2 := Section("spec", deeper("spec"), SpecLines(def.spec, deeper), End);
    var f1 := Section("metadata", deeper("metadata"), MetadataLines(def.metadata), f2);
    TextFieldReadable("kind", def.kind, f1);
    TextFieldReadable("api_version", def.apiVersion, TextField("kind", def.kind, f1));
  }

  lemma {:induction false} LinesFree(f: Forest, indent: nat)
    requires Readable(f)
    ensures forall i :: 0 <= i < |Lines(f, indent)| ==> Free(Lines(f, indent)[i], '\n')
  {
    hide TextOk, KeyOk, Unquote;
    match f
    case End =>
    case Scalar(key, text, rest) =>
      LinesFree(rest, indent);
      KeyValueText(key, text);
      LineFree(indent, key + ": " + text);
    case Item(text, rest) =>
      LinesFree(rest, indent);
      ReadItem(text);
      LineFree(indent, "- " + text);
    case Section(key, deeper, body, rest) =>
      LinesFree(body, indent + deeper);
      LinesFree(rest, indent);
      ReadKey(key);
      LineFree(indent, key + ":");
  }

  /** Any text saying what the lines of a forest say is parsed to that forest's meaning. */
  lemma ParseIsMeaning(f: Forest, raw: string)
    requires Readable(f) && Contents(Split(raw, '\n')) == Contents(Lines(f, 0))
    ensures Parse(raw) == Meaning(f, [], Zero())
  {
    RunIsContents(Init(), Split(raw, '\n'));
    RunIsContents(Init(), Lines(f, 0));
    var none: seq<PathNode> := [];
    var left := ParseForest(f, 0, none, none, Zero());
    hide Contents, RunContents, Run, Meaning;
    assert none + none == none;
  }

  /**
   * A definition laid out in blocks reads back, whatever the depths, blank lines and comments, exactly when every
   * list that holds something is deeper than its key.
   */
  lemma RoundTripExactly(def: ExpertDefinition, deeper: Layout, raw: string)
    requires DefinitionOk(def) && SectionsDeeper(deeper)
    requires Contents(Split(raw, '\n')) == Contents(Lines(DefinitionLines(def, deeper), 0))
    ensures Parse(raw) == def <==> ListsDeeper(def, deeper)
    ensures Parse(raw) == Kept(def, deeper)
  {
    DefinitionReadable(def, deeper);
    DefinitionMeaning(def, deeper);
    ParseIsMeaning(DefinitionLines(def, deeper), raw);
    hide Parse, Meaning, DefinitionLines, Lines, DefinitionOk, Readable;
  }

  /** The plain rendering is one such text. */
  lemma RenderedReadsBack(def: ExpertDefinition, deeper: Layout)
    requires DefinitionOk(def) && SectionsDeeper(deeper) && ListsDeeper(def, deeper)
    ensures Parse(Join(Lines(DefinitionLines(def, deeper), 0), "\n")) == def
  {
    var f := DefinitionLines(def, deeper);
    DefinitionReadable(def, deeper);
    LinesFree(f, 0);
    assert Lines(f, 0) != [] by { hide MetadataLines, SpecLines; }
    hide DefinitionLines, Lines, DefinitionOk, Readable, Contents, Parse, Split;
    SplitJoin(Lines(f, 0), '\n');
    RoundTripExactly(def, deeper, Join(Lines(f, 0), "\n"));
  }
}
