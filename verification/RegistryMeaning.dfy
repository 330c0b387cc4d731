/** What the registry parser makes of any text at all: its first faulty line, or each field from the lines that say it. */
module RegistryMeaning {
  import opened Text
  import opened YamlLines
  import opened RegistryYaml
  import Expert = ExpertYaml

  // ---- what a line is ---------------------------------------------------------------------

  /** A line on the margin that gives the top-level key a value, which may be empty. */
  function TopSaid(lines: seq<string>, i: nat, key: string): Option<string>
    requires i < |lines|
  {
    match ContentOf(lines[i])
    case None => None
    case Some(c) =>
      if c.indent != 0 then None
      else match SplitKeyValue(c.text)
        case None => None
        case Some((k, value)) => if k == key then Some(value) else None
  }

  predicate OnMargin(lines: seq<string>, i: nat)
    requires i < |lines|
  {
    ContentOf(lines[i]).Some? && ContentOf(lines[i]).value.indent == 0
  }

  /** The last of the first `n` lines on the margin opens the list of experts. */
  predicate InList(lines: seq<string>, n: nat)
    requires n <= |lines|
  {
    n > 0 && if OnMargin(lines, n - 1) then TopSaid(lines, n - 1, "experts") == Some("") else InList(lines, n - 1)
  }

  /** A line of the list says something. */
  predicate Inside(lines: seq<string>, i: nat)
    requires i < |lines|
  {
    ContentOf(lines[i]).Some? && !OnMargin(lines, i) && InList(lines, i)
  }

  predicate IsItem(lines: seq<string>, i: nat)
    requires i < |lines|
  {
    Inside(lines, i) && HasPrefix(ContentOf(lines[i]).value.text, "- ")
  }

  /** The items among the first `n` lines. */
  function Items(lines: seq<string>, n: nat): seq<nat>
    requires n <= |lines|
    ensures forall m :: 0 <= m < |Items(lines, n)| ==> Items(lines, n)[m] < n
  {
    if n == 0 then [] else Items(lines, n - 1) + if IsItem(lines, n - 1) then [n - 1] else []
  }

  /** What is read as a field: the line, or what follows the dash of an item. */
  function FieldText(lines: seq<string>, i: nat): Option<string>
    requires i < |lines|
  {
    if !Inside(lines, i) then None
    else
      var text := ContentOf(lines[i]).value.text;
      if !IsItem(lines, i) then Some(text)
      else
        var rest := TrimSpace(TrimPrefix(text, "- "));
        if rest == "" then None else Some(rest)
  }

  function FieldSaid(lines: seq<string>, i: nat, key: string): Option<string>
    requires i < |lines|
  {
    match FieldText(lines, i)
    case None => None
    case Some(text) =>
      match SplitKeyValue(text)
      case None => None
      case Some((k, value)) => if k == key then Some(value) else None
  }

  /** What is wrong with line `i`, taken by itself. */
  function FaultAt(lines: seq<string>, i: nat): Option<Fault>
    requires i < |lines|
  {
    if TopSaid(lines, i, "experts").Some? && TopSaid(lines, i, "experts") != Some("") then Some(ExpertsNotSequence)
    else if Inside(lines, i) && !IsItem(lines, i) && Items(lines, i) == [] then Some(FieldBeforeItem)
    else match FieldText(lines, i)
      case None => None
      case Some(text) =>
        if SplitKeyValue(text).None? then Some(InvalidField(text))
        else match FieldSaid(lines, i, "enabled")
          case None => None
          case Some(value) => if Expert.ParseBool(Expert.Lower(value)).None? then Some(BadEnabled(value)) else None
  }

  // ---- what the lines say together ---------------------------------------------------------------

  function LastTop(lines: seq<string>, n: nat, key: string): string
    requires n <= |lines|
  {
    if n == 0 then ""
    else match TopSaid(lines, n - 1, key)
      case Some(value) => value
      case None => LastTop(lines, n - 1, key)
  }

  /** The last value the lines from `i` to `n` give a field. */
  function LastField(lines: seq<string>, i: nat, n: nat, key: string): string
    requires i <= n <= |lines|
  {
    if i == n then ""
    else match FieldSaid(lines, n - 1, key)
      case Some(value) => value
      case None => LastField(lines, i, n - 1, key)
  }

  function LastFlag(lines: seq<string>, i: nat, n: nat): bool
    requires i <= n <= |lines|
  {
    if i == n then false
    else match FieldSaid(lines, n - 1, "enabled")
      case Some(value) => Expert.ParseBool(Expert.Lower(value)) == Some(true)
      case None => LastFlag(lines, i, n - 1)
  }

  function Entry(lines: seq<string>, i: nat, n: nat): RegistryRef
    requires i <= n <= |lines|
  {
    RegistryRef(LastField(lines, i, n, "expert_id"), LastField(lines, i, n, "config_path"), LastFlag(lines, i, n))
  }

  /** Entry `m` reaches from its item to the next one. */
  function EntryEnd(items: seq<nat>, m: nat, n: nat): nat {
    if m + 1 < |items| then items[m + 1] else n
  }

  ghost predicate RegistryLaw(r: Registry, lines: seq<string>, n: nat)
    requires n <= |lines|
  {
    var items := Items(lines, n);
    && r.apiVersion == LastTop(lines, n, "api_version") && r.kind == LastTop(lines, n, "kind")
    && |r.experts| == |items|
    && forall m :: 0 <= m < |items| ==>
         items[m] <= EntryEnd(items, m, n) && r.experts[m] == Entry(lines, items[m], EntryEnd(items, m, n))
  }

  // ---- the state after some lines ------------------------------------------------------------------

  ghost predicate HeadLaw(st: State, lines: seq<string>, n: nat)
    requires n <= |lines|
  {
    && st.inExperts == InList(lines, n)
    && st.out.apiVersion == LastTop(lines, n, "api_version") && st.out.kind == LastTop(lines, n, "kind")
  }

  /** The finished entries end at the next item, the current one is still open. */
  ghost predicate ListLaw(st: State, lines: seq<string>, n: nat)
    requires n <= |lines|
  {
    var items := Items(lines, n);
    && (st.current.None? <==> items == [])
    && (items == [] ==> st.out.experts == [])
    && (items != [] ==> |st.out.experts| == |items| - 1 && st.current == Some(Entry(lines, items[|items| - 1], n)))
    && forall m :: 0 <= m < |items| - 1 ==>
         items[m] <= items[m + 1] && st.out.experts[m] == Entry(lines, items[m], items[m + 1])
  }

  lemma Flushed(st: State, lines: seq<string>, n: nat)
    requires n <= |lines| && HeadLaw(st, lines, n) && ListLaw(st, lines, n)
    ensures RegistryLaw(Flush(st), lines, n)
  {
    hide LastTop, Entry, InList;
  }

  lemma HeadNext(st: State, lines: seq<string>, n: nat, c: Content, lineNo: nat)
    requires n < |lines| && HeadLaw(st, lines, n) && ContentOf(lines[n]) == Some(c) && Apply(st, c, lineNo).Ok?
    ensures HeadLaw(Apply(st, c, lineNo).value, lines, n + 1)
  {
    assert "api_version" != "kind" && "api_version" != "experts" && "kind" != "experts";
    hide ContentOf, SplitKeyValue, HasPrefix, TrimPrefix, Trim, ItemField;
  }

  lemma HeadSame(st: State, lines: seq<string>, n: nat)
    requires n < |lines| && HeadLaw(st, lines, n) && ContentOf(lines[n]) == None
    ensures HeadLaw(st, lines, n + 1)
  {
    hide ContentOf, SplitKeyValue;
  }

  lemma TopFails(st: State, lines: seq<string>, n: nat, c: Content, lineNo: nat)
    requires n < |lines| && ContentOf(lines[n]) == Some(c) && c.indent == 0
    ensures match TopLevel(st, c.text, lineNo)
            case Ok(_) => FaultAt(lines, n) == None
            case Err(k, fault) => k == lineNo && FaultAt(lines, n) == Some(fault)
  {
    assert "api_version" != "experts" && "kind" != "experts";
    hide ContentOf, SplitKeyValue, HasPrefix, Items;
  }

  lemma FieldFails(lines: seq<string>, n: nat, text: string, item: RegistryRef, lineNo: nat)
    requires n < |lines| && FieldText(lines, n) == Some(text) && (IsItem(lines, n) || Items(lines, n) != [])
    ensures match ItemField(item, text, lineNo)
            case Ok(_) => FaultAt(lines, n) == None
            case Err(k, fault) => k == lineNo && FaultAt(lines, n) == Some(fault)
  {
    assert "expert_id" != "enabled" && "config_path" != "enabled";
    hide ContentOf, SplitKeyValue, HasPrefix, TrimPrefix, Trim, Expert.ParseBool, Expert.Lower, Items;
  }

  /** A line fails exactly when it is faulty. */
  lemma ApplyFails(st: State, lines: seq<string>, n: nat, c: Content, lineNo: nat)
    requires n < |lines| && HeadLaw(st, lines, n) && ListLaw(st, lines, n) && ContentOf(lines[n]) == Some(c)
    ensures match Apply(st, c, lineNo)
            case Ok(_) => FaultAt(lines, n) == None
            case Err(k, fault) => k == lineNo && FaultAt(lines, n) == Some(fault)
  {
    hide ContentOf, SplitKeyValue, HasPrefix, TrimPrefix, Trim, Items, Entry, LastTop, ItemField, TopLevel, FaultAt;
    assert c.indent != 0 && !st.inExperts ==> FaultAt(lines, n) == None by { Outside(lines, n); }
    if c.indent == 0 {
      TopFails(st, lines, n, c, lineNo);
    } else if st.inExperts {
      if FieldText(lines, n).None? { BlankItem(lines, n); }
      else if st.current.Some? || IsItem(lines, n) {
        var item := if IsItem(lines, n) then RegistryRef("", "", false) else st.current.value;
        FieldFails(lines, n, FieldText(lines, n).value, item, lineNo);
      } else {
        EarlyField(lines, n);
      }
    }
  }

  lemma Outside(lines: seq<string>, n: nat)
    requires n < |lines|
    ensures !OnMargin(lines, n) && !InList(lines, n) ==> FaultAt(lines, n) == None
  {
    hide ContentOf, SplitKeyValue, Items;
  }

  lemma BlankItem(lines: seq<string>, n: nat)
    requires n < |lines| && IsItem(lines, n) && FieldText(lines, n) == None
    ensures FaultAt(lines, n) == None
  {
    hide ContentOf, SplitKeyValue, Items, HasPrefix;
  }

  lemma EarlyField(lines: seq<string>, n: nat)
    requires n < |lines| && Inside(lines, n) && !IsItem(lines, n) && Items(lines, n) == []
    ensures FaultAt(lines, n) == Some(FieldBeforeItem)
  {
    hide ContentOf, SplitKeyValue, HasPrefix;
  }

  /** A line that is not inside the list leaves the entries alone. */
  lemma ListOutside(st: State, lines: seq<string>, n: nat, st': State)
    requires n < |lines| && ListLaw(st, lines, n) && !Inside(lines, n)
    requires st'.current == st.current && st'.out.experts == st.out.experts
    ensures ListLaw(st', lines, n + 1)
  {
    var items := Items(lines, n);
    if items != [] { EntryKept(lines, items[|items| - 1], n); }
    hide Entry, Inside;
  }

  lemma EntryKept(lines: seq<string>, i: nat, n: nat)
    requires i <= n < |lines| && FieldText(lines, n) == None
    ensures Entry(lines, i, n + 1) == Entry(lines, i, n)
  {
    hide FieldText;
  }

  /** A field changes the entry it stands in. */
  lemma EntryChanged(lines: seq<string>, i: nat, n: nat, text: string, lineNo: nat)
    requires i <= n < |lines| && FieldText(lines, n) == Some(text) && ItemField(Entry(lines, i, n), text, lineNo).Ok?
    ensures Entry(lines, i, n + 1) == ItemField(Entry(lines, i, n), text, lineNo).value
  {
    assert "expert_id" != "config_path" && "expert_id" != "enabled" && "config_path" != "enabled";
    hide FieldText, SplitKeyValue, Expert.ParseBool, Expert.Lower;
  }

  lemma EntryFresh(lines: seq<string>, i: nat)
    requires i <= |lines|
    ensures Entry(lines, i, i) == RegistryRef("", "", false)
  {}

  lemma ListField(st: State, lines: seq<string>, n: nat, text: string, lineNo: nat)
    requires n < |lines| && ListLaw(st, lines, n) && !IsItem(lines, n) && FieldText(lines, n) == Some(text)
    requires st.current.Some? && ItemField(st.current.value, text, lineNo).Ok?
    ensures ListLaw(st.(current := Some(ItemField(st.current.value, text, lineNo).value)), lines, n + 1)
  {
    var items := Items(lines, n);
    EntryChanged(lines, items[|items| - 1], n, text, lineNo);
    hide Entry, FieldText, IsItem, ItemField;
  }

  lemma ListItem(st: State, lines: seq<string>, n: nat, first: RegistryRef)
    requires n < |lines| && ListLaw(st, lines, n) && IsItem(lines, n) && first == Entry(lines, n, n + 1)
    ensures ListLaw(State(Flush(st), st.inExperts, Some(first)), lines, n + 1)
  {
    hide Entry, IsItem;
    var items, items' := Items(lines, n), Items(lines, n + 1);
    assert items' == items + [n];
    var experts := Flush(st).experts;
    assert |experts| == |items|;
    forall m | 0 <= m < |items| ensures items'[m] <= items'[m + 1] && experts[m] == Entry(lines, items'[m], items'[m + 1]) {
      if m == |items| - 1 { assert items'[m + 1] == n && experts[m] == st.current.value; }
    }
  }

  lemma ListNext(st: State, lines: seq<string>, n: nat, c: Content, lineNo: nat)
    requires n < |lines| && HeadLaw(st, lines, n) && ListLaw(st, lines, n)
    requires ContentOf(lines[n]) == Some(c) && Apply(st, c, lineNo).Ok?
    ensures ListLaw(Apply(st, c, lineNo).value, lines, n + 1)
  {
    hide ContentOf, SplitKeyValue, HasPrefix, TrimPrefix, Trim, ItemField, Items, Entry, LastTop, ListLaw;
    assert Inside(lines, n) <==> c.indent != 0 && st.inExperts;
    assert IsItem(lines, n) <==> Inside(lines, n) && HasPrefix(c.text, "- ");
    if !Inside(lines, n) {
      ListOutside(st, lines, n, Apply(st, c, lineNo).value);
    } else if IsItem(lines, n) {
      ItemNext(st, lines, n, c, lineNo);
    } else {
      ListField(st, lines, n, c.text, lineNo);
    }
  }

  lemma ItemNext(st: State, lines: seq<string>, n: nat, c: Content, lineNo: nat)
    requires n < |lines| && HeadLaw(st, lines, n) && ListLaw(st, lines, n) && IsItem(lines, n)
    requires ContentOf(lines[n]) == Some(c) && Apply(st, c, lineNo).Ok?
    ensures ListLaw(Apply(st, c, lineNo).value, lines, n + 1)
  {
    hide ContentOf, SplitKeyValue, HasPrefix, TrimPrefix, Trim, ItemField, Items, Entry, LastTop, ListLaw;
    var rest, blank := TrimSpace(TrimPrefix(c.text, "- ")), RegistryRef("", "", false);
    EntryFresh(lines, n);
    if rest == "" {
      EntryKept(lines, n, n);
      ListItem(st, lines, n, blank);
    } else {
      EntryChanged(lines, n, n, rest, lineNo);
      ListItem(st, lines, n, ItemField(blank, rest, lineNo).value);
    }
  }

  lemma ListSame(st: State, lines: seq<string>, n: nat)
    requires n < |lines| && ListLaw(st, lines, n) && ContentOf(lines[n]) == None
    ensures ListLaw(st, lines, n + 1)
  {
    hide ContentOf, ListLaw;
    ListOutside(st, lines, n, st);
  }

  // ---- the whole text -----------------------------------------------------------------------------

  /** The first faulty line from `n` on. */
  predicate FirstFault(lines: seq<string>, n: nat, i: nat) {
    n <= i < |lines| && FaultAt(lines, i).Some? && forall j :: n <= j < i ==> FaultAt(lines, j) == None
  }

  lemma {:induction false} RunMeans(st: State, lines: seq<string>, n: nat)
    requires n <= |lines| && HeadLaw(st, lines, n) && ListLaw(st, lines, n)
    ensures match Run(st, lines[n..], n + 1)
            case Ok(end) =>
              && HeadLaw(end, lines, |lines|) && ListLaw(end, lines, |lines|)
              && forall j :: n <= j < |lines| ==> FaultAt(lines, j) == None
            case Err(k, fault) => k > 0 && FirstFault(lines, n, k - 1) && FaultAt(lines, k - 1) == Some(fault)
    decreases |lines| - n
  {
    hide ContentOf, Apply, HeadLaw, ListLaw, FaultAt;
    if n < |lines| {
      assert lines[n..][1..] == lines[n + 1..] && lines[n..][0] == lines[n];
      match ContentOf(lines[n])
      case None =>
        HeadSame(st, lines, n);
        ListSame(st, lines, n);
        NoContentNoFault(lines, n);
        RunMeans(st, lines, n + 1);
      case Some(c) =>
        ApplyFails(st, lines, n, c, n + 1);
        if Apply(st, c, n + 1).Ok? {
          HeadNext(st, lines, n, c, n + 1);
          ListNext(st, lines, n, c, n + 1);
          RunMeans(Apply(st, c, n + 1).value, lines, n + 1);
        }
    }
  }

  lemma NoContentNoFault(lines: seq<string>, i: nat)
    requires i < |lines| && ContentOf(lines[i]) == None
    ensures FaultAt(lines, i) == None
  {
    hide ContentOf, SplitKeyValue;
  }

  lemma NothingRead(lines: seq<string>)
    ensures HeadLaw(Init(), lines, 0) && ListLaw(Init(), lines, 0)
  {}

  /**
   * For any text, parsing fails exactly at its first faulty line, and otherwise gives each field the last value said
   * of it: the top-level ones anywhere on the margin, those of an entry between its item and the next.
   */
  lemma ParsesExactly(raw: string)
    ensures var lines := Split(raw, '\n');
            match Parse(raw)
            case Ok(r) => RegistryLaw(r, lines, |lines|) && forall j :: 0 <= j < |lines| ==> FaultAt(lines, j) == None
            case Err(k, fault) => k > 0 && FirstFault(lines, 0, k - 1) && FaultAt(lines, k - 1) == Some(fault)
  {
    var lines := Split(raw, '\n');
    hide HeadLaw, ListLaw, FaultAt, RegistryLaw, Run, Split, Flush, Init;
    NothingRead(lines);
    RunMeans(Init(), lines, 0);
    assert lines[0..] == lines;
    var r := Run(Init(), lines, 1);
    if r.Ok? { Flushed(r.value, lines, |lines|); }
  }
}
