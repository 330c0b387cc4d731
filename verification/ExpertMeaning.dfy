/** What the expert parser makes of any text at all: each field is what the last line that says it says. */
module ExpertMeaning {
  import opened Text
  import opened YamlLines
  import opened ExpertYaml
  import Layout = ExpertLayout

  // ---- what a line says --------------------------------------------------------------------

  /** The keys of the sections line `i` stands in. */
  ghost function Around(lines: seq<string>, i: nat): seq<string>
    requires i < |lines|
  {
    Keys(OpenAmong(lines, i + 1, i))
  }

  /** The value line `i` gives to the dotted path, if it gives one. */
  ghost function Said(lines: seq<string>, i: nat, path: string): Option<string>
    requires i < |lines|
  {
    match ContentOf(lines[i])
    case None => None
    case Some(c) =>
      if HasPrefix(c.text, "- ") then None
      else match SplitKeyValue(c.text)
        case None => None
        case Some((key, value)) => if value != "" && Dotted(Around(lines, i) + [key]) == path then Some(value) else None
  }

  /** The item it adds to the list at the dotted path, if it adds one. */
  ghost function Listed(lines: seq<string>, i: nat, path: string): Option<string>
    requires i < |lines|
  {
    match ContentOf(lines[i])
    case None => None
    case Some(c) =>
      if !HasPrefix(c.text, "- ") then None
      else
        var item := TrimSpace(TrimPrefix(c.text, "- "));
        if item != "" && Dotted(Around(lines, i)) == path then Some(Unquote(item)) else None
  }

  ghost function LastText(lines: seq<string>, n: nat, path: string): string
    requires n <= |lines|
  {
    if n == 0 then ""
    else match Said(lines, n - 1, path)
      case Some(value) => value
      case None => LastText(lines, n - 1, path)
  }

  /** What is no integer is passed over. */
  ghost function LastNumber(lines: seq<string>, n: nat, path: string): int
    requires n <= |lines|
  {
    if n == 0 then 0
    else match Said(lines, n - 1, path)
      case Some(value) => (match ParseInt(value) case Some(k) => k case None => LastNumber(lines, n - 1, path))
      case None => LastNumber(lines, n - 1, path)
  }

  /** And so is what is no truth value. */
  ghost function LastBool(lines: seq<string>, n: nat, path: string): bool
    requires n <= |lines|
  {
    if n == 0 then false
    else match Said(lines, n - 1, path)
      case Some(value) => (match ParseBool(Lower(value)) case Some(b) => b case None => LastBool(lines, n - 1, path))
      case None => LastBool(lines, n - 1, path)
  }

  ghost function AllListed(lines: seq<string>, n: nat, path: string): seq<string>
    requires n <= |lines|
  {
    if n == 0 then []
    else AllListed(lines, n - 1, path) + match Listed(lines, n - 1, path) case Some(item) => [item] case None => []
  }

  // ---- one line ------------------------------------------------------------------------------

  /** Line `n` says this, of one path only. */
  ghost predicate SaysOnly(lines: seq<string>, n: nat, path: string, value: string)
    requires n < |lines|
  {
    && Said(lines, n, path) == Some(value) && (forall p :: p != path ==> Said(lines, n, p) == None)
    && forall p :: Listed(lines, n, p) == None
  }

  ghost predicate ListsOnly(lines: seq<string>, n: nat, path: string, item: string)
    requires n < |lines|
  {
    && Listed(lines, n, path) == Some(item) && (forall p :: p != path ==> Listed(lines, n, p) == None)
    && forall p :: Said(lines, n, p) == None
  }

  ghost predicate SaysNothing(lines: seq<string>, n: nat)
    requires n < |lines|
  {
    forall p :: Said(lines, n, p) == None && Listed(lines, n, p) == None
  }

  /** A scalar line sets the field its path names, and no other line sets any. */
  ghost predicate Sets(out: ExpertDefinition, lines: seq<string>, n: nat, out': ExpertDefinition)
    requires n < |lines|
  {
    || (exists path, value :: SaysOnly(lines, n, path, value) && out' == SetScalar(out, path, value))
    || (exists path, item :: ListsOnly(lines, n, path, item) && out' == AddItem(out, path, item))
    || (SaysNothing(lines, n) && out' == out)
  }

  lemma LineSets(lines: seq<string>, n: nat)
    requires n < |lines|
    ensures Sets(Run(Init(), lines[..n]).out, lines, n, Run(Init(), lines[..n + 1]).out)
  {
    hide Run, ContentOf, PopTo, Sets, Apply;
    RunNext(lines, n);
    var st := Run(Init(), lines[..n]);
    if ContentOf(lines[n]).Some? {
      StackAround(lines, n, ContentOf(lines[n]).value.indent);
      ContentSets(st.out, lines, n, PopTo(st.stack, ContentOf(lines[n]).value.indent), ContentOf(lines[n]).value);
    } else {
      BlankSets(st.out, lines, n);
    }
  }

  lemma StackAround(lines: seq<string>, n: nat, indent: nat)
    requires n < |lines| && ContentOf(lines[n]).Some? && ContentOf(lines[n]).value.indent == indent
    ensures Keys(PopTo(Run(Init(), lines[..n]).stack, indent)) == Around(lines, n)
  {
    hide Run, ContentOf, PopTo, Below, OpenAmong, Keys, Increasing;
    StackMeaning(lines, n);
    StillOpenNext(lines, n, n);
    PopIsBelow(OpenAmong(lines, n, n), indent);
  }

  lemma BlankSets(out: ExpertDefinition, lines: seq<string>, n: nat)
    requires n < |lines| && ContentOf(lines[n]) == None
    ensures Sets(out, lines, n, out)
  {
    hide ContentOf;
  }

  lemma ContentSets(out: ExpertDefinition, lines: seq<string>, n: nat, stack: seq<PathNode>, c: Content)
    requires n < |lines| && ContentOf(lines[n]) == Some(c) && Keys(stack) == Around(lines, n)
    ensures Sets(out, lines, n, Apply(stack, out, c).out)
  {
    hide ContentOf, SplitKeyValue, HasPrefix, TrimPrefix, Trim, Unquote, Keys, Dotted, SetScalar, AddItem, Around;
    if HasPrefix(c.text, "- ") {
      var item := TrimSpace(TrimPrefix(c.text, "- "));
      if item != "" { assert ListsOnly(lines, n, Dotted(Around(lines, n)), Unquote(item)); }
    } else if SplitKeyValue(c.text).Some? {
      var (key, value) := SplitKeyValue(c.text).value;
      if value != "" { assert SaysOnly(lines, n, Dotted(Around(lines, n) + [key]), value); }
    }
  }

  // ---- the fields ------------------------------------------------------------------------------

  lemma {:induction false} SlotFound(path: string, i: nat)
    requires i <= |SLOTS|
    ensures SlotFrom(path, i).Some? ==> SlotPath(SlotFrom(path, i).value) == path
    decreases |SLOTS| - i
  {
    hide SlotPath;
    if i < |SLOTS| { SlotFound(path, i + 1); }
  }

  /** A path selects the one field whose path it is. */
  lemma SlotExactly(path: string, slot: Slot)
    ensures SlotOf(path) == Some(slot) <==> path == SlotPath(slot)
  {
    SlotFound(path, 0);
    Layout.SlotFromPath(slot, 0, Layout.SlotIndex(slot));
    hide SlotPath, SlotFrom;
  }

  lemma TextSlotSet(out: ExpertDefinition, slot: Slot, value: string)
    ensures var o, m, r := SetSlot(out, slot, value), out.metadata, out.spec.runtime;
            && o.apiVersion == (if slot == ApiVersion then value else out.apiVersion)
            && o.kind == (if slot == Kind then value else out.kind)
            && o.metadata.expertID == (if slot == ExpertID then value else m.expertID)
            && o.metadata.expertName == (if slot == ExpertName then value else m.expertName)
            && o.metadata.expertType == (if slot == ExpertType then value else m.expertType)
            && o.metadata.version == (if slot == Version then value else m.version)
            && o.metadata.owner == (if slot == Owner then value else m.owner)
            && o.metadata.description == (if slot == Description then value else m.description)
            && o.spec.runtime.mode == (if slot == Mode then value else r.mode)
            && o.spec.runtime.entrypoint == (if slot == Entrypoint then value else r.entrypoint)
            && o.spec.outputs.resultSchema == (if slot == ResultSchema then value else out.spec.outputs.resultSchema)
            && o.spec.outputs.evidenceMode == (if slot == EvidenceMode then value else out.spec.outputs.evidenceMode)
  {
    hide ParseInt, ParseBool, Lower;
  }

  lemma OtherSlotSet(out: ExpertDefinition, slot: Slot, value: string)
    ensures var o, s := SetSlot(out, slot, value).spec, out.spec;
            && o.enabled == (if slot == Enabled then OrElse(ParseBool(Lower(value)), s.enabled) else s.enabled)
            && o.routing.priority == (if slot == Priority then OrElse(ParseInt(value), s.routing.priority) else s.routing.priority)
            && o.runtime.timeoutSeconds ==
               (if slot == Timeout then OrElse(ParseInt(value), s.runtime.timeoutSeconds) else s.runtime.timeoutSeconds)
            && o.runtime.maxConcurrency ==
               (if slot == Concurrency then OrElse(ParseInt(value), s.runtime.maxConcurrency) else s.runtime.maxConcurrency)
            && o.capabilities == s.capabilities && o.routing.tags == s.routing.tags && o.accepts == s.accepts
  {
    hide ParseInt, ParseBool, Lower;
  }

  /** What a scalar line makes of the text fields: the one its path names takes the value, the others stay. */
  lemma TextsSet(out: ExpertDefinition, path: string, value: string)
    ensures var o, m, r := SetScalar(out, path, value), out.metadata, out.spec.runtime;
            && o.apiVersion == (if path == SlotPath(ApiVersion) then value else out.apiVersion)
            && o.kind == (if path == SlotPath(Kind) then value else out.kind)
            && o.metadata.expertID == (if path == SlotPath(ExpertID) then value else m.expertID)
            && o.metadata.expertName == (if path == SlotPath(ExpertName) then value else m.expertName)
            && o.metadata.expertType == (if path == SlotPath(ExpertType) then value else m.expertType)
            && o.metadata.version == (if path == SlotPath(Version) then value else m.version)
            && o.metadata.owner == (if path == SlotPath(Owner) then value else m.owner)
            && o.metadata.description == (if path == SlotPath(Description) then value else m.description)
            && o.spec.runtime.mode == (if path == SlotPath(Mode) then value else r.mode)
            && o.spec.runtime.entrypoint == (if path == SlotPath(Entrypoint) then value else r.entrypoint)
            && o.spec.outputs.resultSchema == (if path == SlotPath(ResultSchema) then value else out.spec.outputs.resultSchema)
            && o.spec.outputs.evidenceMode == (if path == SlotPath(EvidenceMode) then value else out.spec.outputs.evidenceMode)
  {
    hide SlotPath, SlotOf, SetSlot;
    SlotExactly(path, ApiVersion);
    SlotExactly(path, Kind);
    SlotExactly(path, ExpertID);
    SlotExactly(path, ExpertName);
    SlotExactly(path, ExpertType);
    SlotExactly(path, Version);
    SlotExactly(path, Owner);
    SlotExactly(path, Description);
    SlotExactly(path, Mode);
    SlotExactly(path, Entrypoint);
    SlotExactly(path, ResultSchema);
    SlotExactly(path, EvidenceMode);
    if SlotOf(path).Some? { TextSlotSet(out, SlotOf(path).value, value); }
  }

  /** And of the others, which a value that does not parse leaves alone. */
  lemma OthersSet(out: ExpertDefinition, path: string, value: string)
    ensures var o, s := SetScalar(out, path, value).spec, out.spec;
            && o.enabled == (if path == SlotPath(Enabled) then OrElse(ParseBool(Lower(value)), s.enabled) else s.enabled)
            && o.routing.priority ==
               (if path == SlotPath(Priority) then OrElse(ParseInt(value), s.routing.priority) else s.routing.priority)
            && o.runtime.timeoutSeconds ==
               (if path == SlotPath(Timeout) then OrElse(ParseInt(value), s.runtime.timeoutSeconds) else s.runtime.timeoutSeconds)
            && o.runtime.maxConcurrency ==
               (if path == SlotPath(Concurrency) then OrElse(ParseInt(value), s.runtime.maxConcurrency) else s.runtime.maxConcurrency)
            && o.capabilities == s.capabilities && o.routing.tags == s.routing.tags && o.accepts == s.accepts
  {
    hide SlotPath, SlotOf, SetSlot, ParseInt, ParseBool, Lower, OrElse;
    SlotExactly(path, Enabled);
    SlotExactly(path, Priority);
    SlotExactly(path, Timeout);
    SlotExactly(path, Concurrency);
    if SlotOf(path).Some? { OtherSlotSet(out, SlotOf(path).value, value); }
  }

  /** An item leaves every scalar alone. */
  lemma ItemsSet(out: ExpertDefinition, path: string, item: string)
    ensures var o, added := AddItem(out, path, item), [item];
            && o.apiVersion == out.apiVersion && o.kind == out.kind && o.metadata == out.metadata
            && o.spec.enabled == out.spec.enabled && o.spec.runtime == out.spec.runtime && o.spec.outputs == out.spec.outputs
            && o.spec.routing.priority == out.spec.routing.priority
            && o.spec.capabilities == out.spec.capabilities + (if path == "spec.capabilities" then added else [])
            && o.spec.routing.tags == out.spec.routing.tags + (if path == "spec.routing.tags" then added else [])
            && o.spec.accepts == out.spec.accepts + (if path == "spec.inputs.accepts" then added else [])
  {
    assert "spec.capabilities"[5] == 'c' && "spec.routing.tags"[5] == 'r' && "spec.inputs.accepts"[5] == 'i';
  }

  // ---- the whole text ----------------------------------------------------------------------------

  ghost predicate TextsLaw(out: ExpertDefinition, lines: seq<string>, n: nat)
    requires n <= |lines|
  {
    && out.apiVersion == LastText(lines, n, "api_version")
    && out.kind == LastText(lines, n, "kind")
    && out.metadata.expertID == LastText(lines, n, "metadata.expert_id")
    && out.metadata.expertName == LastText(lines, n, "metadata.expert_name")
    && out.metadata.expertType == LastText(lines, n, "metadata.expert_type")
    && out.metadata.version == LastText(lines, n, "metadata.version")
    && out.metadata.owner == LastText(lines, n, "metadata.owner")
    && out.metadata.description == LastText(lines, n, "metadata.description")
    && out.spec.runtime.mode == LastText(lines, n, "spec.runtime.mode")
    && out.spec.runtime.entrypoint == LastText(lines, n, "spec.runtime.entrypoint")
    && out.spec.outputs.resultSchema == LastText(lines, n, "spec.outputs.result_schema")
    && out.spec.outputs.evidenceMode == LastText(lines, n, "spec.outputs.evidence_mode")
  }

  ghost predicate OthersLaw(out: ExpertDefinition, lines: seq<string>, n: nat)
    requires n <= |lines|
  {
    && out.spec.enabled == LastBool(lines, n, "spec.enabled")
    && out.spec.routing.priority == LastNumber(lines, n, "spec.routing.priority")
    && out.spec.runtime.timeoutSeconds == LastNumber(lines, n, "spec.runtime.timeout_seconds")
    && out.spec.runtime.maxConcurrency == LastNumber(lines, n, "spec.runtime.max_concurrency")
  }

  ghost predicate ListsLaw(out: ExpertDefinition, lines: seq<string>, n: nat)
    requires n <= |lines|
  {
    && out.spec.capabilities == AllListed(lines, n, "spec.capabilities")
    && out.spec.routing.tags == AllListed(lines, n, "spec.routing.tags")
    && out.spec.accepts == AllListed(lines, n, "spec.inputs.accepts")
  }

  /** The same laws, path by path of the switch. */
  ghost predicate TextsBySlot(out: ExpertDefinition, lines: seq<string>, n: nat)
    requires n <= |lines|
  {
    && out.apiVersion == LastText(lines, n, SlotPath(ApiVersion))
    && out.kind == LastText(lines, n, SlotPath(Kind))
    && out.metadata.expertID == LastText(lines, n, SlotPath(ExpertID))
    && out.metadata.expertName == LastText(lines, n, SlotPath(ExpertName))
    && out.metadata.expertType == LastText(lines, n, SlotPath(ExpertType))
    && out.metadata.version == LastText(lines, n, SlotPath(Version))
    && out.metadata.owner == LastText(lines, n, SlotPath(Owner))
    && out.metadata.description == LastText(lines, n, SlotPath(Description))
    && out.spec.runtime.mode == LastText(lines, n, SlotPath(Mode))
    && out.spec.runtime.entrypoint == LastText(lines, n, SlotPath(Entrypoint))
    && out.spec.outputs.resultSchema == LastText(lines, n, SlotPath(ResultSchema))
    && out.spec.outputs.evidenceMode == LastText(lines, n, SlotPath(EvidenceMode))
  }

  ghost predicate OthersBySlot(out: ExpertDefinition, lines: seq<string>, n: nat)
    requires n <= |lines|
  {
    && out.spec.enabled == LastBool(lines, n, SlotPath(Enabled))
    && out.spec.routing.priority == LastNumber(lines, n, SlotPath(Priority))
    && out.spec.runtime.timeoutSeconds == LastNumber(lines, n, SlotPath(Timeout))
    && out.spec.runtime.maxConcurrency == LastNumber(lines, n, SlotPath(Concurrency))
  }

  lemma LastSays(lines: seq<string>, n: nat, path: string, value: string, p: string)
    requires n < |lines| && SaysOnly(lines, n, path, value)
    ensures LastText(lines, n + 1, p) == if p == path then value else LastText(lines, n, p)
    ensures LastNumber(lines, n + 1, p) ==
            if p == path then OrElse(ParseInt(value), LastNumber(lines, n, p)) else LastNumber(lines, n, p)
    ensures LastBool(lines, n + 1, p) ==
            if p == path then OrElse(ParseBool(Lower(value)), LastBool(lines, n, p)) else LastBool(lines, n, p)
    ensures AllListed(lines, n + 1, p) == AllListed(lines, n, p)
  {
    assert Said(lines, n, p) == if p == path then Some(value) else None;
    hide SaysOnly, Said, Listed, ParseInt, ParseBool, Lower;
  }

  lemma LastSame(lines: seq<string>, n: nat, p: string)
    requires n < |lines| && Said(lines, n, p) == None
    ensures LastText(lines, n + 1, p) == LastText(lines, n, p)
    ensures LastNumber(lines, n + 1, p) == LastNumber(lines, n, p)
    ensures LastBool(lines, n + 1, p) == LastBool(lines, n, p)
  {
    hide Said, ParseInt, ParseBool, Lower;
  }

  lemma ListedNext(lines: seq<string>, n: nat, p: string)
    requires n < |lines|
    ensures AllListed(lines, n + 1, p) ==
            AllListed(lines, n, p) + match Listed(lines, n, p) case Some(item) => [item] case None => []
  {
    hide Listed;
  }

  lemma TextsSaid(out: ExpertDefinition, lines: seq<string>, n: nat, path: string, value: string)
    requires n < |lines| && TextsBySlot(out, lines, n) && SaysOnly(lines, n, path, value)
    ensures TextsBySlot(SetScalar(out, path, value), lines, n + 1)
  {
    hide SaysOnly, SetScalar, LastText, LastNumber, LastBool, AllListed, OrElse, ParseInt, ParseBool, Lower, SlotPath;
    forall slot ensures LastText(lines, n + 1, SlotPath(slot)) ==
                        if path == SlotPath(slot) then value else LastText(lines, n, SlotPath(slot))
    {
      LastSays(lines, n, path, value, SlotPath(slot));
    }
    TextsSet(out, path, value);
  }

  lemma OthersSaid(out: ExpertDefinition, lines: seq<string>, n: nat, path: string, value: string)
    requires n < |lines| && OthersBySlot(out, lines, n) && SaysOnly(lines, n, path, value)
    ensures OthersBySlot(SetScalar(out, path, value), lines, n + 1)
  {
    hide SaysOnly, SetScalar, LastText, LastNumber, LastBool, AllListed, OrElse, ParseInt, ParseBool, Lower, SlotPath;
    LastSays(lines, n, path, value, SlotPath(Enabled));
    LastSays(lines, n, path, value, SlotPath(Priority));
    LastSays(lines, n, path, value, SlotPath(Timeout));
    LastSays(lines, n, path, value, SlotPath(Concurrency));
    OthersSet(out, path, value);
  }

  lemma ScalarsSame(out: ExpertDefinition, lines: seq<string>, n: nat, out': ExpertDefinition)
    requires n < |lines| && TextsBySlot(out, lines, n) && OthersBySlot(out, lines, n)
    requires forall slot :: Said(lines, n, SlotPath(slot)) == None
    requires out'.apiVersion == out.apiVersion && out'.kind == out.kind && out'.metadata == out.metadata
    requires out'.spec.enabled == out.spec.enabled && out'.spec.runtime == out.spec.runtime && out'.spec.outputs == out.spec.outputs
    requires out'.spec.routing.priority == out.spec.routing.priority
    ensures TextsBySlot(out', lines, n + 1) && OthersBySlot(out', lines, n + 1)
  {
    hide Said, LastText, LastNumber, LastBool, SlotPath;
    forall slot
      ensures LastText(lines, n + 1, SlotPath(slot)) == LastText(lines, n, SlotPath(slot))
      ensures LastNumber(lines, n + 1, SlotPath(slot)) == LastNumber(lines, n, SlotPath(slot))
      ensures LastBool(lines, n + 1, SlotPath(slot)) == LastBool(lines, n, SlotPath(slot))
    {
      LastSame(lines, n, SlotPath(slot));
    }
  }

  lemma ListsSame(out: ExpertDefinition, lines: seq<string>, n: nat, out': ExpertDefinition)
    requires n < |lines| && ListsLaw(out, lines, n) && forall p :: Listed(lines, n, p) == None
    requires out'.spec.capabilities == out.spec.capabilities && out'.spec.routing.tags == out.spec.routing.tags
    requires out'.spec.accepts == out.spec.accepts
    ensures ListsLaw(out', lines, n + 1)
  {
    ListedNext(lines, n, "spec.capabilities");
    ListedNext(lines, n, "spec.routing.tags");
    ListedNext(lines, n, "spec.inputs.accepts");
    hide AllListed, Listed;
  }

  lemma ListsListed(out: ExpertDefinition, lines: seq<string>, n: nat, path: string, item: string)
    requires n < |lines| && ListsLaw(out, lines, n) && ListsOnly(lines, n, path, item)
    ensures ListsLaw(AddItem(out, path, item), lines, n + 1)
  {
    ListedNext(lines, n, "spec.capabilities");
    ListedNext(lines, n, "spec.routing.tags");
    ListedNext(lines, n, "spec.inputs.accepts");
    hide AllListed, Listed, Said, AddItem;
    ItemsSet(out, path, item);
  }

  lemma ListsNext(out: ExpertDefinition, lines: seq<string>, n: nat, out': ExpertDefinition)
    requires n < |lines| && ListsLaw(out, lines, n) && Sets(out, lines, n, out')
    ensures ListsLaw(out', lines, n + 1)
  {
    hide SetScalar, AddItem, AllListed, Said, Listed, ListsLaw, SlotPath, ParseInt, ParseBool, Lower, OrElse;
    if path, item :| ListsOnly(lines, n, path, item) && out' == AddItem(out, path, item) {
      ListsListed(out, lines, n, path, item);
    } else {
      if path, value :| SaysOnly(lines, n, path, value) && out' == SetScalar(out, path, value) { OthersSet(out, path, value); }
      ListsSame(out, lines, n, out');
    }
  }

  lemma ScalarsNext(out: ExpertDefinition, lines: seq<string>, n: nat, out': ExpertDefinition)
    requires n < |lines| && TextsBySlot(out, lines, n) && OthersBySlot(out, lines, n) && Sets(out, lines, n, out')
    ensures TextsBySlot(out', lines, n + 1) && OthersBySlot(out', lines, n + 1)
  {
    hide SetScalar, AddItem, TextsBySlot, OthersBySlot, Said, Listed, SlotPath;
    if path, value :| SaysOnly(lines, n, path, value) && out' == SetScalar(out, path, value) {
      TextsSaid(out, lines, n, path, value);
      OthersSaid(out, lines, n, path, value);
    } else {
      if path, item :| ListsOnly(lines, n, path, item) && out' == AddItem(out, path, item) { ItemsSet(out, path, item); }
      ScalarsSame(out, lines, n, out');
    }
  }

  lemma NothingSaid(lines: seq<string>)
    ensures TextsBySlot(Zero(), lines, 0) && OthersBySlot(Zero(), lines, 0) && ListsLaw(Zero(), lines, 0)
  {
    hide SlotPath;
  }

  lemma {:induction false} FieldsAre(lines: seq<string>, n: nat)
    requires n <= |lines|
    ensures var out := Run(Init(), lines[..n]).out;
            TextsBySlot(out, lines, n) && OthersBySlot(out, lines, n) && ListsLaw(out, lines, n)
  {
    hide TextsBySlot, OthersBySlot, ListsLaw, Sets, Step;
    if n == 0 {
      NothingSaid(lines);
    } else {
      hide Run;
      FieldsAre(lines, n - 1);
      LineSets(lines, n - 1);
      var before, after := Run(Init(), lines[..n - 1]).out, Run(Init(), lines[..n]).out;
      ScalarsNext(before, lines, n - 1, after);
      ListsNext(before, lines, n - 1, after);
    }
  }

  /** The paths as the document writes them. */
  lemma MetadataPaths()
    ensures SlotPath(ApiVersion) == "api_version" && SlotPath(Kind) == "kind"
    ensures SlotPath(ExpertID) == "metadata.expert_id" && SlotPath(ExpertName) == "metadata.expert_name"
    ensures SlotPath(ExpertType) == "metadata.expert_type" && SlotPath(Version) == "metadata.version"
    ensures SlotPath(Owner) == "metadata.owner" && SlotPath(Description) == "metadata.description"
  {}

  lemma SpecPaths()
    ensures SlotPath(Enabled) == "spec.enabled" && SlotPath(Priority) == "spec.routing.priority"
    ensures SlotPath(Mode) == "spec.runtime.mode" && SlotPath(Entrypoint) == "spec.runtime.entrypoint"
    ensures SlotPath(Timeout) == "spec.runtime.timeout_seconds"
    ensures SlotPath(Concurrency) == "spec.runtime.max_concurrency"
    ensures SlotPath(ResultSchema) == "spec.outputs.result_schema"
    ensures SlotPath(EvidenceMode) == "spec.outputs.evidence_mode"
  {}

  lemma BySlot(out: ExpertDefinition, lines: seq<string>, n: nat)
    requires n <= |lines| && TextsBySlot(out, lines, n) && OthersBySlot(out, lines, n)
    ensures TextsLaw(out, lines, n) && OthersLaw(out, lines, n)
  {
    MetadataPaths();
    SpecPaths();
    hide LastText, LastNumber, LastBool, SlotPath;
  }

  /**
   * For any text, each text field is the last value a line gives to its dotted path, each number and truth value the
   * last one that parses, and each list all items in order; nothing else in the text counts.
   */
  lemma FieldsExactly(raw: string)
    ensures var lines := Split(raw, '\n');
            TextsLaw(Parse(raw), lines, |lines|) && OthersLaw(Parse(raw), lines, |lines|) && ListsLaw(Parse(raw), lines, |lines|)
  {
    var lines := Split(raw, '\n');
    FieldsAre(lines, |lines|);
    assert lines[..|lines|] == lines;
    hide TextsLaw, OthersLaw, ListsLaw, TextsBySlot, OthersBySlot, Run, Split;
    BySlot(Parse(raw), lines, |lines|);
  }
}
