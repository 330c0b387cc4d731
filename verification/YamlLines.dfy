/** How the registry loader reads one line: comments, indentation, `key: value` and quoted scalars. */
module YamlLines {
  import opened Text

  // ---- comments ------------------------------------------------------------------------------

  datatype Quote = Plain | Single | Double

  /** Which quote is open after one more character. */
  function After(q: Quote, c: char): Quote {
    if c == '\'' && q != Double then (if q == Single then Plain else Single)
    else if c == '"' && q != Single then (if q == Double then Plain else Double)
    else q
  }

  /** The rest of a line up to its comment, given which quote is open. */
  function StripFrom(line: string, q: Quote): string {
    if line == "" || (line[0] == '#' && q == Plain) then "" else [line[0]] + StripFrom(line[1..], After(q, line[0]))
  }

  function StripComment(line: string): string {
    StripFrom(line, Plain)
  }

  lemma StripNext(line: string, i: nat, q: Quote)
    requires i < |line| && !(line[i] == '#' && q == Plain)
    ensures line[..i] + StripFrom(line[i..], q) == line[..i + 1] + StripFrom(line[i + 1..], After(q, line[i]))
  {
    hide After;
    assert line[i..][1..] == line[i + 1..] && line[..i + 1] == line[..i] + [line[i]];
  }

  method StripInlineComment(line: string) returns (r: string)
    ensures r == StripComment(line)
  {
    var inSingle, inDouble := false, false;
    ghost var q := Plain;
    assert line[0..] == line;
    for i := 0 to |line|
      invariant inSingle == (q == Single) && inDouble == (q == Double)
      invariant StripComment(line) == line[..i] + StripFrom(line[i..], q)
    {
      match line[i] {
        case '\'' => if !inDouble { inSingle := !inSingle; }
        case '"' => if !inSingle { inDouble := !inDouble; }
        case '#' => if !inSingle && !inDouble { return line[..i]; }
        case _ =>
      }
      StripNext(line, i, q);
      q := After(q, line[i]);
      hide StripFrom;
    }
    r := line;
  }

  function QuoteAfter(s: string): Quote {
    if s == "" then Plain else After(QuoteAfter(s[..|s| - 1]), s[|s| - 1])
  }

  /** A comment starts at `i`: a hash sign with no quote open. */
  predicate CommentAt(line: string, i: nat) {
    i < |line| && line[i] == '#' && QuoteAfter(line[..i]) == Plain
  }

  lemma {:induction false} StripFromExact(line: string, i: nat)
    requires i <= |line|
    ensures var r := StripFrom(line[i..], QuoteAfter(line[..i]));
            && |r| <= |line| - i && r == line[i..i + |r|]
            && (i + |r| < |line| ==> CommentAt(line, i + |r|))
            && forall j :: i <= j < i + |r| ==> !CommentAt(line, j)
    decreases |line| - i
  {
    hide After;
    if i < |line| && !CommentAt(line, i) {
      assert line[..i + 1][..i] == line[..i];
      assert line[i..][1..] == line[i + 1..];
      StripFromExact(line, i + 1);
      assert line[i..] == [line[i]] + line[i + 1..];
    }
  }

  /** Stripping cuts a line at its first comment, and nowhere else. */
  lemma StripExact(line: string)
    ensures var r := StripComment(line);
            && |r| <= |line| && r == line[..|r|]
            && (|r| < |line| ==> CommentAt(line, |r|))
            && forall j :: 0 <= j < |r| ==> !CommentAt(line, j)
  {
    StripFromExact(line, 0);
    assert line[0..] == line;
  }

  // ---- indentation -----------------------------------------------------------------------------

  function LeadingSpaces(line: string): (n: nat)
    ensures n <= |line| && (forall i :: 0 <= i < n ==> line[i] == ' ') && (n < |line| ==> line[n] != ' ')
  {
    if line != "" && line[0] == ' ' then 1 + LeadingSpaces(line[1..]) else 0
  }

  method CountLeadingSpaces(line: string) returns (count: nat)
    ensures count == LeadingSpaces(line)
  {
    count := 0;
    for i := 0 to |line|
      invariant count == i && forall j :: 0 <= j < i ==> line[j] == ' '
    {
      if line[i] != ' ' { break; }
      count := count + 1;
    }
  }

  // ---- keys and scalars ----------------------------------------------------------------------------

  predicate Quoted(s: string) {
    |s| >= 2 && ((s[0] == '"' && s[|s| - 1] == '"') || (s[0] == '\'' && s[|s| - 1] == '\''))
  }

  function Unquote(value: string): string {
    var v := TrimSpace(value);
    if Quoted(v) then v[1..|v| - 1] else v
  }

  function SplitKeyValue(line: string): Option<(string, string)> {
    match IndexOf(line, ':')
    case None => None
    case Some(colon) =>
      if colon == 0 then None
      else
        var key := TrimSpace(line[..colon]);
        if key == "" then None else Some((key, Unquote(TrimSpace(line[colon + 1..]))))
  }

  predicate SplitsInto(line: string, before: string, after: string, key: string, value: string) {
    && line == before + ":" + after && Free(before, ':')
    && TrimSpace(before) == key && key != "" && value == Unquote(TrimSpace(after))
  }

  lemma SplitsOnce(line: string, before: string, after: string, key: string, value: string)
    requires SplitsInto(line, before, after, key, value)
    ensures SplitKeyValue(line) == Some((key, value))
  {
    IndexOfFirst(before, after, ':');
    TrimOfBare("", IsSpace);
    assert TrimSpace("") == "";
    assert before + [':'] + after == line && line[..|before|] == before && line[|before| + 1..] == after;
    hide Unquote, IndexOf, Trim;
  }

  /** A line splits at its first colon into a key that is not blank and the unquoted rest. */
  lemma SplitExactly(line: string, key: string, value: string)
    ensures SplitKeyValue(line) == Some((key, value)) <==>
            exists before, after :: SplitsInto(line, before, after, key, value)
  {
    hide Unquote, Trim;
    if SplitKeyValue(line) == Some((key, value)) {
      var colon := IndexOf(line, ':').value;
      var before, after := line[..colon], line[colon + 1..];
      assert line == before + ":" + after;
      assert SplitsInto(line, before, after, key, value);
    }
    hide SplitsInto, SplitKeyValue;
    if before, after :| SplitsInto(line, before, after, key, value) { SplitsOnce(line, before, after, key, value); }
  }

  datatype Content = Content(indent: nat, text: string)

  /** What a line says; `None` for a blank or comment-only one. */
  function ContentOf(line: string): Option<Content> {
    var trimmed := TrimSpace(StripComment(line));
    if trimmed == "" then None else Some(Content(LeadingSpaces(line), trimmed))
  }

  /** What the lines say, blank ones and comments left out. */
  function Contents(lines: seq<string>): seq<Content> {
    if lines == [] then []
    else (if ContentOf(lines[0]).Some? then [ContentOf(lines[0]).value] else []) + Contents(lines[1..])
  }

  // ---- writing lines ---------------------------------------------------------------------------------

  function Spaces(n: nat): (s: string)
    ensures |s| == n && forall i :: 0 <= i < n ==> s[i] == ' '
  {
    seq(n, _ => ' ')
  }

  /** A text the reader takes whole: something on one line, bare of outer space, with no comment in it. */
  predicate TextOk(text: string) {
    text != "" && Bare(text, IsSpace) && StripComment(text) == text && Free(text, '\n')
  }

  predicate KeyOk(key: string) {
    key != "" && Bare(key, IsSpace) && !HasPrefix(key, "- ") && forall c <- key :: c !in ":#\"'\n"
  }

  lemma PlainKey(key: string)
    requires key != "" && forall i :: 0 <= i < |key| ==> 'a' <= key[i] <= 'z' || key[i] == '_'
    ensures KeyOk(key)
  {}

  lemma {:induction false} StripPlain(prefix: string, rest: string)
    requires forall c <- prefix :: c !in "#\"'"
    ensures StripComment(prefix + rest) == prefix + StripComment(rest)
  {
    if prefix == "" {
      assert prefix + rest == rest;
    } else {
      assert (prefix + rest)[1..] == prefix[1..] + rest;
      assert prefix[0] in prefix;
      StripPlain(prefix[1..], rest);
    }
  }

  lemma ReadLine(indent: nat, text: string)
    requires TextOk(text)
    ensures ContentOf(Spaces(indent) + text) == Some(Content(indent, text))
  {
    var pad := Spaces(indent);
    StripPlain(pad, text);
    TrimPadded(pad, text, "", IsSpace);
    assert pad + text + "" == pad + text;
    assert (pad + text)[indent] == text[0] && !IsSpace(text[0]);
    assert forall i :: 0 <= i < indent ==> (pad + text)[i] == ' ';
  }

  lemma ReadKey(key: string)
    requires KeyOk(key)
    ensures TextOk(key + ":") && !HasPrefix(key + ":", "- ") && SplitKeyValue(key + ":") == Some((key, ""))
  {
    StripPlain(key + ":", "");
    assert key + ":" + "" == key + ":";
    IndexOfFirst(key, "", ':');
    assert key + [':'] + "" == key + ":";
    TrimOfBare(key, IsSpace);
    NoDash(key, ":");
  }

  lemma NoDash(key: string, rest: string)
    requires KeyOk(key) && rest != "" && rest[0] == ':'
    ensures !HasPrefix(key + rest, "- ")
  {
    if |key| >= 2 {
      assert (key + rest)[..2] == key[..2];
    } else {
      assert (key + rest)[1] == ':' && "- "[1] == ' ';
      assert (key + rest)[..2][1] == ':';
    }
  }

  lemma KeyValueText(key: string, text: string)
    requires KeyOk(key) && TextOk(text)
    ensures TextOk(key + ": " + text) && !HasPrefix(key + ": " + text, "- ")
  {
    var prefix := key + ": ";
    StripPlain(prefix, text);
    NoDash(key, ": " + text);
    assert key + (": " + text) == prefix + text;
    hide IsSpace, StripComment, HasPrefix;
    assert (prefix + text)[0] == key[0];
    assert (prefix + text)[|prefix + text| - 1] == text[|text| - 1];
  }

  lemma ReadKeyValue(key: string, text: string)
    requires key != "" && Bare(key, IsSpace) && Free(key, ':') && TextOk(text)
    ensures SplitKeyValue(key + ": " + text) == Some((key, Unquote(text)))
  {
    var line := key + ": " + text;
    hide IsSpace, StripComment, HasPrefix, Trim, IndexOf;
    IndexOfFirst(key, " " + text, ':');
    assert key + [':'] + (" " + text) == line;
    assert line[..|key|] == key && line[|key| + 1..] == " " + text;
    TrimOfBare(key, IsSpace);
    TrimAfterSpace(text);
  }

  lemma TrimAfterSpace(text: string)
    requires text != "" && Bare(text, IsSpace)
    ensures TrimSpace(" " + text) == text
  {
    TrimPadded(" ", text, "", IsSpace);
    assert " " + text + "" == " " + text;
  }

  lemma ReadItem(text: string)
    requires TextOk(text)
    ensures var line := "- " + text;
            TextOk(line) && HasPrefix(line, "- ") && TrimSpace(TrimPrefix(line, "- ")) == text
  {
    var line := "- " + text;
    StripPlain("- ", text);
    assert line[..2] == "- " && line[2..] == text;
    TrimOfBare(text, IsSpace);
  }

  function LinesOf(contents: seq<Content>): (r: seq<string>)
    ensures |r| == |contents|
    ensures forall i :: 0 <= i < |r| ==> r[i] == Spaces(contents[i].indent) + contents[i].text
  {
    if contents == [] then [] else [Spaces(contents[0].indent) + contents[0].text] + LinesOf(contents[1..])
  }

  lemma {:induction false} LinesSay(contents: seq<Content>)
    requires forall i :: 0 <= i < |contents| ==> TextOk(contents[i].text)
    ensures Contents(LinesOf(contents)) == contents
  {
    hide TextOk, ContentOf;
    if contents != [] {
      ReadLine(contents[0].indent, contents[0].text);
      LinesSay(contents[1..]);
    }
  }

  lemma LineFree(indent: nat, text: string)
    requires TextOk(text)
    ensures Free(Spaces(indent) + text, '\n')
  {}

  lemma LinesOfFree(contents: seq<Content>)
    requires forall i :: 0 <= i < |contents| ==> TextOk(contents[i].text)
    ensures forall i :: 0 <= i < |contents| ==> Free(LinesOf(contents)[i], '\n')
  {
    hide TextOk, Free, LinesOf;
    forall i | 0 <= i < |contents| ensures Free(LinesOf(contents)[i], '\n') {
      LineFree(contents[i].indent, contents[i].text);
    }
  }

  // ---- writing scalars ---------------------------------------------------------------------------------

  /** Read with `q` open, no part of the text starts a comment. */
  predicate Clean(s: string, q: Quote) {
    StripFrom(s, q) == s
  }

  /** Between double quotes, between single quotes, or as it stands. */
  predicate Writable(value: string) {
    Free(value, '\n') && (Clean(value, Double) || Clean(value, Single) || (TextOk(value) && !Quoted(value)))
  }

  function Written(value: string): string {
    if Clean(value, Double) then "\"" + value + "\""
    else if Clean(value, Single) then "'" + value + "'"
    else value
  }

  /** What is clean stays clean before a closing quote, and the other way round. */
  lemma {:induction false} CleanThen(s: string, q: Quote, c: char)
    requires c != '#'
    ensures Clean(s + [c], q) <==> Clean(s, q)
  {
    if s == "" {
      assert s + [c] == [c];
      CleanFirst([c], q);
    } else {
      assert (s + [c])[1..] == s[1..] + [c];
      CleanThen(s[1..], After(q, s[0]), c);
      CleanFirst(s, q);
      CleanFirst(s + [c], q);
    }
  }

  lemma CleanFirst(s: string, q: Quote)
    requires s != ""
    ensures Clean(s, q) <==> !(s[0] == '#' && q == Plain) && Clean(s[1..], After(q, s[0]))
  {
    assert s == [s[0]] + s[1..];
  }

  /** A quoted text has no comment exactly when what it quotes is clean inside that quote. */
  lemma QuotedClean(value: string, q: Quote, mark: char)
    requires (q == Double && mark == '"') || (q == Single && mark == '\'')
    ensures Clean([mark] + value + [mark], Plain) <==> Clean(value, q)
  {
    var text := [mark] + value + [mark];
    assert text[1..] == value + [mark];
    CleanFirst(text, Plain);
    CleanThen(value, q, mark);
  }

  lemma UnquoteQuoted(value: string, mark: char)
    requires mark == '"' || mark == '\''
    ensures Bare([mark] + value + [mark], IsSpace) && Unquote([mark] + value + [mark]) == value
  {
    var text := [mark] + value + [mark];
    TrimOfBare(text, IsSpace);
    assert text[1..|text| - 1] == value;
    hide Trim;
  }

  /** Every writable value is read back from its text, whatever spaces, colons or hash signs it holds. */
  lemma ReadWritten(value: string)
    requires Writable(value)
    ensures TextOk(Written(value)) && Unquote(Written(value)) == value
  {
    QuotedClean(value, Double, '"');
    QuotedClean(value, Single, '\'');
    UnquoteQuoted(value, '"');
    UnquoteQuoted(value, '\'');
    if !Clean(value, Double) && !Clean(value, Single) { TrimOfBare(value, IsSpace); }
    hide StripFrom, Trim, Unquote, IsSpace;
  }

  lemma ReadIsWritable(text: string)
    requires TextOk(text)
    ensures Writable(Unquote(text))
  {
    TrimOfBare(text, IsSpace);
    hide IsSpace, Trim;
    if Quoted(text) {
      var mark, value := text[0], text[1..|text| - 1];
      assert text == [mark] + value + [mark];
      QuotedClean(value, if mark == '"' then Double else Single, mark);
    }
  }

  /** The writable values are exactly those some text on one line is read as. */
  lemma WritableExactly(value: string)
    ensures Writable(value) <==> exists text :: TextOk(text) && Unquote(text) == value
  {
    hide Writable, TextOk, Unquote;
    if Writable(value) { ReadWritten(value); }
    if text :| TextOk(text) && Unquote(text) == value { ReadIsWritable(text); }
  }
}
