/** The registry parser: top-level keys, then list items with their fields, or an error naming a line. */
module RegistryYaml {
  import opened Text
  import opened YamlLines
  import Expert = ExpertYaml

  datatype RegistryRef = RegistryRef(expertID: string, configPath: string, enabled: bool)

  datatype Registry = Registry(apiVersion: string, kind: string, experts: seq<RegistryRef>)

  datatype Fault = ExpertsNotSequence | FieldBeforeItem | InvalidField(text: string) | BadEnabled(value: string)

  /** `lineNo` counts from 1. */
  datatype Result<T> = Ok(value: T) | Err(lineNo: nat, fault: Fault)

  datatype State = State(out: Registry, inExperts: bool, current: Option<RegistryRef>)

  function Init(): State {
    State(Registry("", "", []), false, None)
  }

  // ---- the parser on values ------------------------------------------------------------------

  function ItemField(item: RegistryRef, line: string, lineNo: nat): Result<RegistryRef> {
    match SplitKeyValue(line)
    case None => Err(lineNo, InvalidField(line))
    case Some((key, value)) =>
      if key == "expert_id" then Ok(item.(expertID := value))
      else if key == "config_path" then Ok(item.(configPath := value))
      else if key == "enabled" then
        match Expert.ParseBool(Expert.Lower(value))
        case None => Err(lineNo, BadEnabled(value))
        case Some(enabled) => Ok(item.(enabled := enabled))
      else Ok(item)
  }

  /** The finished entry, if any, joins the list. */
  function Flush(st: State): Registry {
    if st.current.None? then st.out else st.out.(experts := st.out.experts + [st.current.value])
  }

  function WithField(st: State, item: RegistryRef, line: string, lineNo: nat): Result<State> {
    match ItemField(item, line, lineNo)
    case Err(n, fault) => Err(n, fault)
    case Ok(changed) => Ok(st.(current := Some(changed)))
  }

  function TopLevel(st: State, text: string, lineNo: nat): Result<State> {
    var st' := st.(inExperts := false);
    match SplitKeyValue(text)
    case None => Ok(st')
    case Some((key, value)) =>
      if key == "api_version" then Ok(st'.(out := st.out.(apiVersion := value)))
      else if key == "kind" then Ok(st'.(out := st.out.(kind := value)))
      else if key == "experts" then (if value != "" then Err(lineNo, ExpertsNotSequence) else Ok(st'.(inExperts := true)))
      else Ok(st')
  }

  function Apply(st: State, c: Content, lineNo: nat): Result<State> {
    if c.indent == 0 then TopLevel(st, c.text, lineNo)
    else if !st.inExperts then Ok(st)
    else if HasPrefix(c.text, "- ") then
      var st', blank := st.(out := Flush(st)), RegistryRef("", "", false);
      var rest := TrimSpace(TrimPrefix(c.text, "- "));
      if rest == "" then Ok(st'.(current := Some(blank))) else WithField(st', blank, rest, lineNo)
    else if st.current.None? then Err(lineNo, FieldBeforeItem)
    else WithField(st, st.current.value, c.text, lineNo)
  }

  /** Reading `lines`, the first of which is number `lineNo`. */
  function Run(st: State, lines: seq<string>, lineNo: nat): Result<State>
    decreases |lines|
  {
    if lines == [] then Ok(st)
    else match ContentOf(lines[0])
      case None => Run(st, lines[1..], lineNo + 1)
      case Some(c) =>
        match Apply(st, c, lineNo)
        case Err(n, fault) => Err(n, fault)
        case Ok(st') => Run(st', lines[1..], lineNo + 1)
  }

  function Parse(raw: string): Result<Registry> {
    match Run(Init(), Split(raw, '\n'), 1)
    case Err(n, fault) => Err(n, fault)
    case Ok(st) => Ok(Flush(st))
  }

  // ---- the parser ------------------------------------------------------------------------------

  method ParseRegistry(raw: string) returns (r: Result<Registry>)
    ensures r == Parse(raw)
  {
    var lines := Split(raw, '\n');
    var out := Registry("", "", []);
    var inExperts := false;
    var current: Option<RegistryRef> := None;
    for i := 0 to |lines|
      invariant Run(State(out, inExperts, current), lines[i..], i + 1) == Run(Init(), lines, 1)
    {
      hide ItemField, SplitKeyValue, Unquote, StripComment, Trim, HasPrefix, TrimPrefix, LeadingSpaces;
      assert lines[i..][1..] == lines[i + 1..];
      ghost var before := State(out, inExperts, current);
      var stripped := StripInlineComment(lines[i]);
      var trimmed := TrimSpace(stripped);
      if trimmed == "" { continue; }
      var indent := CountLeadingSpaces(lines[i]);
      ghost var c := Content(indent, trimmed);
      assert ContentOf(lines[i]) == Some(c);
      if indent == 0 {
        inExperts := false;
        var pair := SplitKeyValue(trimmed);
        if pair.Some? {
          var (key, value) := pair.value;
          if key == "api_version" {
            out := out.(apiVersion := value);
          } else if key == "kind" {
            out := out.(kind := value);
          } else if key == "experts" {
            if value != "" { return Err(i + 1, ExpertsNotSequence); }
            inExperts := true;
          }
        }
        continue;
      }
      if !inExperts { continue; }
      if HasPrefix(trimmed, "- ") {
        if current.Some? { out := out.(experts := out.experts + [current.value]); }
        current := Some(RegistryRef("", "", false));
        var rest := TrimSpace(TrimPrefix(trimmed, "- "));
        if rest == "" { continue; }
        var changed := ItemField(current.value, rest, i + 1);
        if changed.Err? { return Err(changed.lineNo, changed.fault); }
        current := Some(changed.value);
        continue;
      }
      if current.None? { return Err(i + 1, FieldBeforeItem); }
      var changed := ItemField(current.value, trimmed, i + 1);
      if changed.Err? { return Err(changed.lineNo, changed.fault); }
      current := Some(changed.value);
    }
    assert lines[|lines|..] == [];
    if current.Some? { out := out.(experts := out.experts + [current.value]); }
    r := Ok(out);
  }

  // ---- reading a registry back -------------------------------------------------------------------

  /** The lines of one entry, the first a list item. */
  function EntryContents(ref: RegistryRef, a: nat, b: nat, c: nat): seq<Content> {
    [ Content(a, "- " + ("expert_id: " + Written(ref.expertID))),
      Content(b, "config_path: " + Written(ref.configPath)),
      Content(c, "enabled: " + Expert.Bool(ref.enabled)) ]
  }

  /** Three indentations for each entry. */
  type Layout = nat -> (nat, nat, nat)

  /** The fields after an entry's first line are off the margin; only the first lines may stand on it. */
  ghost predicate FieldsIndented(at: Layout) {
    forall k: nat :: at(k).1 > 0 && at(k).2 > 0
  }

  /** The first entry from `k` on whose list item stands on the margin; `n` when there is none. */
  function FirstOnMargin(n: nat, k: nat, at: Layout): (m: nat)
    requires k <= n
    ensures k <= m <= n && (forall j :: k <= j < m ==> at(j).0 > 0) && (m < n ==> at(m).0 == 0)
    decreases n - k
  {
    if k == n || at(k).0 == 0 then k else FirstOnMargin(n, k + 1, at)
  }

  /** Entries `k` and on. */
  function EntriesFrom(refs: seq<RegistryRef>, k: nat, at: Layout): seq<Content>
    requires k <= |refs|
    decreases |refs| - k
  {
    if k == |refs| then [] else EntryContents(refs[k], at(k).0, at(k).1, at(k).2) + EntriesFrom(refs, k + 1, at)
  }

  function HeadContents(r: Registry): seq<Content> {
    [ Content(0, "api_version: " + Written(r.apiVersion)),
      Content(0, "kind: " + Written(r.kind)),
      Content(0, "experts:") ]
  }

  function RegistryContents(r: Registry, at: Layout): seq<Content> {
    HeadContents(r) + EntriesFrom(r.experts, 0, at)
  }

  predicate RefOk(ref: RegistryRef) {
    Writable(ref.expertID) && Writable(ref.configPath)
  }

  ghost predicate RegistryOk(r: Registry) {
    Writable(r.apiVersion) && Writable(r.kind) && forall k :: 0 <= k < |r.experts| ==> RefOk(r.experts[k])
  }

  /** A run without errors, over contents alone. */
  function RunContents(st: State, contents: seq<Content>): Option<State>
    decreases |contents|
  {
    if contents == [] then Some(st)
    else match Apply(st, contents[0], 0)
      case Err(_, _) => None
      case Ok(st') => RunContents(st', contents[1..])
  }

  /** Line numbers and blank or comment lines matter to errors only. */
  lemma ApplyAnyLine(st: State, c: Content, m: nat, n: nat)
    ensures Apply(st, c, m).Ok? <==> Apply(st, c, n).Ok?
    ensures Apply(st, c, m).Ok? ==> Apply(st, c, m).value == Apply(st, c, n).value
  {
    hide SplitKeyValue, HasPrefix, TrimPrefix, Trim, Unquote;
  }

  lemma {:induction false} RunIsContents(st: State, lines: seq<string>, lineNo: nat)
    ensures var r, o := Run(st, lines, lineNo), RunContents(st, Contents(lines));
            (r.Ok? <==> o.Some?) && (r.Ok? ==> r.value == o.value)
    decreases |lines|
  {
    hide ContentOf, Apply;
    if lines != [] {
      match ContentOf(lines[0])
      case None =>
        RunIsContents(st, lines[1..], lineNo + 1);
        assert Contents(lines) == Contents(lines[1..]);
      case Some(c) =>
        ApplyAnyLine(st, c, lineNo, 0);
        assert Contents(lines)[1..] == Contents(lines[1..]);
        if Apply(st, c, lineNo).Ok? { RunIsContents(Apply(st, c, lineNo).value, lines[1..], lineNo + 1); }
    }
  }

  lemma KeysOk()
    ensures KeyOk("api_version") && KeyOk("kind") && KeyOk("experts")
    ensures KeyOk("expert_id") && KeyOk("config_path") && KeyOk("enabled")
  {
    hide KeyOk;
    PlainKey("api_version");
    PlainKey("kind");
    PlainKey("experts");
    PlainKey("expert_id");
    PlainKey("config_path");
    PlainKey("enabled");
  }

  lemma ReadField(key: string, value: string)
    requires KeyOk(key) && Writable(value)
    ensures SplitKeyValue(key + ": " + Written(value)) == Some((key, value))
    ensures TextOk(key + ": " + Written(value)) && !HasPrefix(key + ": " + Written(value), "- ")
  {
    ReadWritten(value);
    ReadKeyValue(key, Written(value));
    KeyValueText(key, Written(value));
  }

  lemma KeysDiffer()
    ensures "expert_id" != "config_path" && "expert_id" != "enabled" && "config_path" != "enabled"
    ensures "api_version" != "kind" && "api_version" != "experts" && "kind" != "experts"
    ensures "- expert_id" !in ["api_version", "kind", "experts"]
  {
    assert "api_version"[0] == 'a' && "- expert_id"[0] == '-';
  }

  lemma ItemText(id: string)
    requires Writable(id)
    ensures var text, line := "expert_id: " + Written(id), "- " + ("expert_id: " + Written(id));
            && HasPrefix(line, "- ") && TrimSpace(TrimPrefix(line, "- ")) == text && text != "" && TextOk(line)
            && SplitKeyValue(text) == Some(("expert_id", id))
  {
    hide IsSpace, Bare, StripComment, Trim, TrimPrefix, HasPrefix, Written, Unquote, SplitKeyValue, TextOk, KeyOk, Writable;
    KeysOk();
    ReadField("expert_id", id);
    assert "expert_id" + ": " == "expert_id: ";
    ReadItem("expert_id: " + Written(id));
  }

  /** On the margin the same line is a top-level key nobody knows. */
  lemma ItemOnMargin(id: string)
    requires Writable(id)
    ensures SplitKeyValue("- " + ("expert_id: " + Written(id))) == Some(("- expert_id", id))
  {
    hide IsSpace, Bare, StripComment, Trim, TrimPrefix, HasPrefix, Written, Unquote, SplitKeyValue, TextOk, Writable;
    ReadWritten(id);
    DashedKey();
    ReadKeyValue("- expert_id", Written(id));
    assert "- expert_id" + ": " + Written(id) == "- " + ("expert_id: " + Written(id));
  }

  lemma DashedKey()
    ensures Bare("- expert_id", IsSpace) && Free("- expert_id", ':')
  {}

  /** A list item off the margin starts an entry. */
  lemma ItemStarts(st: State, a: nat, id: string)
    requires st.inExperts && a > 0 && Writable(id)
    ensures Apply(st, Content(a, "- " + ("expert_id: " + Written(id))), 0)
            == Ok(State(Flush(st), true, Some(RegistryRef(id, "", false))))
  {
    ItemText(id);
    hide SplitKeyValue, HasPrefix, TrimPrefix, Trim, Written, TextOk, Writable;
  }

  lemma ConfigRead(st: State, b: nat, item: RegistryRef, path: string)
    requires st.inExperts && b > 0 && Writable(path) && st.current == Some(item)
    ensures Apply(st, Content(b, "config_path: " + Written(path)), 0) == Ok(st.(current := Some(item.(configPath := path))))
  {
    KeysDiffer();
    KeysOk();
    assert "config_path" + ": " == "config_path: ";
    hide SplitKeyValue, HasPrefix, TextOk, KeyOk, Written, Writable, Unquote;
    ReadField("config_path", path);
  }

  lemma EnabledRead(st: State, c: nat, item: RegistryRef, enabled: bool)
    requires st.inExperts && c > 0 && st.current == Some(item)
    ensures Apply(st, Content(c, "enabled: " + Expert.Bool(enabled)), 0) == Ok(st.(current := Some(item.(enabled := enabled))))
  {
    KeysDiffer();
    KeysOk();
    Expert.BoolText(enabled);
    assert "enabled" + ": " == "enabled: ";
    KeyValueText("enabled", Expert.Bool(enabled));
    ReadKeyValue("enabled", Expert.Bool(enabled));
    hide SplitKeyValue, HasPrefix, TextOk, KeyOk, Unquote, Expert.Bool, Expert.ParseBool, Expert.Lower;
  }

  lemma RunOne(st: State, c: Content, rest: seq<Content>)
    requires Apply(st, c, 0).Ok?
    ensures RunContents(st, [c] + rest) == RunContents(Apply(st, c, 0).value, rest)
  {
    hide Apply;
    assert ([c] + rest)[1..] == rest;
  }

  lemma RunThree(st: State, a: Content, b: Content, c: Content, rest: seq<Content>)
    requires Apply(st, a, 0).Ok? && Apply(Apply(st, a, 0).value, b, 0).Ok?
    requires Apply(Apply(Apply(st, a, 0).value, b, 0).value, c, 0).Ok?
    ensures RunContents(st, [a, b, c] + rest) == RunContents(Apply(Apply(Apply(st, a, 0).value, b, 0).value, c, 0).value, rest)
  {
    hide Apply, RunContents;
    assert [a, b, c] + rest == [a] + ([b] + ([c] + rest));
    var s1 := Apply(st, a, 0).value;
    var s2 := Apply(s1, b, 0).value;
    RunOne(st, a, [b] + ([c] + rest));
    RunOne(s1, b, [c] + rest);
    RunOne(s2, c, rest);
  }

  lemma EntryRead(st: State, ref: RegistryRef, a: nat, b: nat, c: nat, rest: seq<Content>)
    requires st.inExperts && a > 0 && b > 0 && c > 0 && RefOk(ref)
    ensures RunContents(st, EntryContents(ref, a, b, c) + rest) == RunContents(State(Flush(st), true, Some(ref)), rest)
  {
    var s1 := State(Flush(st), true, Some(RegistryRef(ref.expertID, "", false)));
    ItemStarts(st, a, ref.expertID);
    ConfigRead(s1, b, s1.current.value, ref.configPath);
    var s2 := s1.(current := Some(RegistryRef(ref.expertID, ref.configPath, false)));
    EnabledRead(s2, c, s2.current.value, ref.enabled);
    hide Apply, RunContents, Written, Expert.Bool;
    var e := EntryContents(ref, a, b, c);
    assert e == [e[0], e[1], e[2]];
    RunThree(st, e[0], e[1], e[2], rest);
  }

  lemma ItemSkipped(st: State, a: nat, id: string)
    requires (!st.inExperts || a == 0) && Writable(id)
    ensures Apply(st, Content(a, "- " + ("expert_id: " + Written(id))), 0) == Ok(st.(inExperts := false))
  {
    KeysDiffer();
    ItemOnMargin(id);
    hide SplitKeyValue, HasPrefix, TrimPrefix, Trim, Written, TextOk, Writable, WithField, Flush;
  }

  lemma FieldSkipped(st: State, c: Content)
    requires !st.inExperts && c.indent > 0
    ensures Apply(st, c, 0) == Ok(st)
  {}

  /** Outside the experts section an entry is skipped, its list item on the margin or not. */
  lemma EntrySkipped(st: State, ref: RegistryRef, a: nat, b: nat, c: nat, rest: seq<Content>)
    requires (!st.inExperts || a == 0) && b > 0 && c > 0 && RefOk(ref)
    ensures RunContents(st, EntryContents(ref, a, b, c) + rest) == RunContents(st.(inExperts := false), rest)
  {
    var e, out := EntryContents(ref, a, b, c), st.(inExperts := false);
    ItemSkipped(st, a, ref.expertID);
    hide Written, Expert.Bool, Apply, RunContents, Writable;
    FieldSkipped(out, e[1]);
    FieldSkipped(out, e[2]);
    assert e == [e[0], e[1], e[2]];
    RunThree(st, e[0], e[1], e[2], rest);
  }

  lemma {:induction false} EntriesSkipped(refs: seq<RegistryRef>, k: nat, at: Layout, st: State)
    requires k <= |refs| && FieldsIndented(at) && !st.inExperts
    requires forall j :: 0 <= j < |refs| ==> RefOk(refs[j])
    ensures RunContents(st, EntriesFrom(refs, k, at)) == Some(st)
    decreases |refs| - k
  {
    hide Apply, RefOk, EntryContents;
    if k < |refs| {
      EntrySkipped(st, refs[k], at(k).0, at(k).1, at(k).2, EntriesFrom(refs, k + 1, at));
      EntriesSkipped(refs, k + 1, at, st);
    }
  }

  lemma {:induction false} EntriesRead(refs: seq<RegistryRef>, k: nat, at: Layout, st: State)
    requires k <= |refs| && FieldsIndented(at) && st.inExperts
    requires forall j :: 0 <= j < |refs| ==> RefOk(refs[j])
    ensures var r, m := RunContents(st, EntriesFrom(refs, k, at)), FirstOnMargin(|refs|, k, at);
            r.Some? && Flush(r.value) == Flush(st).(experts := Flush(st).experts + refs[k..m])
    decreases |refs| - k
  {
    hide Apply, RefOk, EntryContents;
    var before := Flush(st).experts;
    if k == |refs| {
      assert before + refs[k..k] == before;
    } else if at(k).0 == 0 {
      EntrySkipped(st, refs[k], at(k).0, at(k).1, at(k).2, EntriesFrom(refs, k + 1, at));
      EntriesSkipped(refs, k + 1, at, st.(inExperts := false));
      assert before + refs[k..k] == before;
    } else {
      var next := State(Flush(st), true, Some(refs[k]));
      EntryRead(st, refs[k], at(k).0, at(k).1, at(k).2, EntriesFrom(refs, k + 1, at));
      EntriesRead(refs, k + 1, at, next);
      var m := FirstOnMargin(|refs|, k + 1, at);
      assert before + [refs[k]] + refs[k + 1..m] == before + refs[k..m];
    }
  }

  lemma HeadRead(r: Registry)
    requires Writable(r.apiVersion) && Writable(r.kind)
    ensures var s1 := Init().(out := Registry(r.apiVersion, "", []));
            var s2 := Init().(out := Registry(r.apiVersion, r.kind, []));
            && Apply(Init(), Content(0, "api_version: " + Written(r.apiVersion)), 0) == Ok(s1)
            && Apply(s1, Content(0, "kind: " + Written(r.kind)), 0) == Ok(s2)
            && Apply(s2, Content(0, "experts:"), 0) == Ok(s2.(inExperts := true))
  {
    KeysOk();
    KeysDiffer();
    ReadField("api_version", r.apiVersion);
    ReadField("kind", r.kind);
    ReadKey("experts");
    assert "api_version" + ": " == "api_version: " && "kind" + ": " == "kind: " && "experts" + ":" == "experts:";
    hide SplitKeyValue, Written, KeyOk, TextOk, HasPrefix, Writable;
  }

  lemma LayoutRead(r: Registry, at: Layout)
    requires RegistryOk(r) && FieldsIndented(at)
    ensures var o := RunContents(Init(), RegistryContents(r, at));
            o.Some? && Flush(o.value) == r.(experts := r.experts[..FirstOnMargin(|r.experts|, 0, at)])
  {
    HeadRead(r);
    var st := State(Registry(r.apiVersion, r.kind, []), true, None);
    EntriesRead(r.experts, 0, at, st);
    hide Apply, RunContents, EntriesFrom, Written, RefOk;
    var c, rest := RegistryContents(r, at), EntriesFrom(r.experts, 0, at);
    assert c == [c[0], c[1], c[2]] + rest;
    RunThree(Init(), c[0], c[1], c[2], rest);
    var m := FirstOnMargin(|r.experts|, 0, at);
    assert [] + r.experts[0..m] == r.experts[..m];
  }

  /**
   * Any text that says a registry in list items is parsed to it up to its first list item on the margin: exactly
   * when no item stands there does the registry read back, and otherwise the rest of it is dropped without an error.
   */
  lemma RegistryReadsBackExactly(r: Registry, at: Layout, raw: string)
    requires RegistryOk(r) && FieldsIndented(at)
    requires Contents(Split(raw, '\n')) == RegistryContents(r, at)
    ensures Parse(raw) == Ok(r.(experts := r.experts[..FirstOnMargin(|r.experts|, 0, at)]))
    ensures Parse(raw) == Ok(r) <==> forall k :: 0 <= k < |r.experts| ==> at(k).0 > 0
  {
    var lines := Split(raw, '\n');
    RunIsContents(Init(), lines, 1);
    LayoutRead(r, at);
    hide RunContents, Run, RegistryContents, Contents, RegistryOk, Split, Init;
    var m := FirstOnMargin(|r.experts|, 0, at);
    if m == |r.experts| { assert r.experts[..m] == r.experts; }
  }

  lemma EntryTexts(ref: RegistryRef, a: nat, b: nat, c: nat)
    requires RefOk(ref)
    ensures var e := EntryContents(ref, a, b, c); |e| == 3 && TextOk(e[0].text) && TextOk(e[1].text) && TextOk(e[2].text)
  {
    KeysOk();
    assert "config_path" + ": " == "config_path: " && "enabled" + ": " == "enabled: ";
    Expert.BoolText(ref.enabled);
    ItemText(ref.expertID);
    hide TextOk, KeyOk, Written, Writable, Expert.Bool, Expert.Lower, HasPrefix, TrimPrefix, Trim, SplitKeyValue;
    ReadField("config_path", ref.configPath);
    KeyValueText("enabled", Expert.Bool(ref.enabled));
  }

  lemma {:induction false} EntriesTexts(refs: seq<RegistryRef>, k: nat, at: Layout)
    requires k <= |refs| && forall j :: 0 <= j < |refs| ==> RefOk(refs[j])
    ensures forall c <- EntriesFrom(refs, k, at) :: TextOk(c.text)
    decreases |refs| - k
  {
    hide TextOk, RefOk, EntryContents;
    if k < |refs| {
      EntriesTexts(refs, k + 1, at);
      EntryTexts(refs[k], at(k).0, at(k).1, at(k).2);
    }
  }

  lemma HeadTexts(r: Registry)
    requires Writable(r.apiVersion) && Writable(r.kind)
    ensures TextOk("api_version: " + Written(r.apiVersion)) && TextOk("kind: " + Written(r.kind)) && TextOk("experts:")
  {
    KeysOk();
    assert "api_version" + ": " == "api_version: " && "kind" + ": " == "kind: " && "experts" + ":" == "experts:";
    hide TextOk, KeyOk, Written, Writable;
    ReadField("api_version", r.apiVersion);
    ReadField("kind", r.kind);
    ReadKey("experts");
  }

  lemma HeadContentsTexts(r: Registry)
    requires Writable(r.apiVersion) && Writable(r.kind)
    ensures forall c <- HeadContents(r) :: TextOk(c.text)
  {
    HeadTexts(r);
    hide TextOk, Written, Writable;
  }

  lemma RegistryTexts(r: Registry, at: Layout)
    requires RegistryOk(r)
    ensures var contents := RegistryContents(r, at);
            |contents| > 0 && forall i :: 0 <= i < |contents| ==> TextOk(contents[i].text)
  {
    EntriesTexts(r.experts, 0, at);
    HeadContentsTexts(r);
    var head, contents := HeadContents(r), RegistryContents(r, at);
    assert |head| == 3;
    hide TextOk, HeadContents, EntriesFrom;
    forall i | 0 <= i < |contents| ensures TextOk(contents[i].text) {
      assert contents[i] in contents && (contents[i] in head || contents[i] in EntriesFrom(r.experts, 0, at));
    }
  }

  /** The plain rendering is one such text. */
  lemma RenderedRegistryReadsBack(r: Registry, at: Layout)
    requires RegistryOk(r) && FieldsIndented(at) && forall k :: 0 <= k < |r.experts| ==> at(k).0 > 0
    ensures Parse(Join(LinesOf(RegistryContents(r, at)), "\n")) == Ok(r)
  {
    hide RegistryContents, TextOk, RegistryOk, Parse, Contents, Split, Free, LinesOf, FieldsIndented, Join;
    var contents := RegistryContents(r, at);
    RegistryTexts(r, at);
    LinesSay(contents);
    LinesOfFree(contents);
    SplitJoin(LinesOf(contents), '\n');
    RegistryReadsBackExactly(r, at, Join(LinesOf(contents), "\n"));
  }
}
