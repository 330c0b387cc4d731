/** The pieces of Go's `strings` and `strconv` packages the modelled code calls, over sequences of characters. */
module Text {

  datatype Option<+T> = None | Some(value: T)

  // ---- trimming -------------------------------------------------------------

  /** The characters `unicode.IsSpace` accepts. */
  predicate IsSpace(c: char) {
    || '\t' <= c <= '\r' || c == ' ' || c == '\U{85}' || c == '\U{A0}'
    || c == '\U{1680}' || '\U{2000}' <= c <= '\U{200A}' || c == '\U{2028}' || c == '\U{2029}'
    || c == '\U{202F}' || c == '\U{205F}' || c == '\U{3000}'
  }

  predicate IsSlash(c: char) { c == '/' }

  ghost predicate All(s: string, p: char -> bool) {
    forall i :: 0 <= i < |s| ==> p(s[i])
  }

  /** No character matching `p` at either end. */
  predicate Bare(s: string, p: char -> bool) {
    s == "" || (!p(s[0]) && !p(s[|s| - 1]))
  }

  function TrimLeft(s: string, p: char -> bool): string {
    if s != "" && p(s[0]) then TrimLeft(s[1..], p) else s
  }

  function TrimRight(s: string, p: char -> bool): string {
    if s != "" && p(s[|s| - 1]) then TrimRight(s[..|s| - 1], p) else s
  }

  /** `strings.TrimFunc`; `strings.Trim(s, "/")` is `Trim(s, IsSlash)`. */
  function Trim(s: string, p: char -> bool): string {
    TrimRight(TrimLeft(s, p), p)
  }

  function TrimSpace(s: string): string {
    Trim(s, IsSpace)
  }

  lemma TrimBare(s: string, p: char -> bool)
    ensures Bare(Trim(s, p), p)
  {
    TrimLeftBare(s, p);
    TrimRightBare(TrimLeft(s, p), p);
  }

  lemma {:induction false} TrimLeftBare(s: string, p: char -> bool)
    ensures TrimLeft(s, p) != "" ==> !p(TrimLeft(s, p)[0])
  {
    if s != "" && p(s[0]) { TrimLeftBare(s[1..], p); }
  }

  lemma {:induction false} TrimRightBare(s: string, p: char -> bool)
    requires s != "" ==> !p(s[0])
    ensures Bare(TrimRight(s, p), p)
  {
    if s != "" && p(s[|s| - 1]) { TrimRightBare(s[..|s| - 1], p); }
  }

  lemma TrimOfBare(s: string, p: char -> bool)
    requires Bare(s, p)
    ensures Trim(s, p) == s
  {}

  /** Padding around a bare body is exactly what trimming removes. */
  lemma {:induction false} TrimPadded(left: string, body: string, right: string, p: char -> bool)
    requires All(left, p) && All(right, p) && Bare(body, p) && body != ""
    ensures Trim(left + body + right, p) == body
  {
    TrimLeftPadded(left, body + right, p);
    assert left + body + right == left + (body + right);
    TrimRightPadded(body, right, p);
  }

  lemma {:induction false} TrimLeftPadded(left: string, rest: string, p: char -> bool)
    requires All(left, p) && (rest != "" ==> !p(rest[0]))
    ensures TrimLeft(left + rest, p) == rest
  {
    if left == "" {
      assert left + rest == rest;
    } else {
      assert (left + rest)[1..] == left[1..] + rest;
      TrimLeftPadded(left[1..], rest, p);
    }
  }

  lemma {:induction false} TrimRightPadded(body: string, right: string, p: char -> bool)
    requires All(right, p) && Bare(body, p)
    ensures TrimRight(body + right, p) == body
  {
    if right == "" {
      assert body + right == body;
    } else {
      assert (body + right)[..|body + right| - 1] == body + right[..|right| - 1];
      TrimRightPadded(body, right[..|right| - 1], p);
    }
  }

  // ---- searching, splitting, joining ---------------------------------------

  predicate HasPrefix(s: string, prefix: string) {
    |prefix| <= |s| && s[..|prefix|] == prefix
  }

  predicate HasSuffix(s: string, suffix: string) {
    |suffix| <= |s| && s[|s| - |suffix|..] == suffix
  }

  function TrimPrefix(s: string, prefix: string): string {
    if HasPrefix(s, prefix) then s[|prefix|..] else s
  }

  function TrimSuffix(s: string, suffix: string): string {
    if HasSuffix(s, suffix) then s[..|s| - |suffix|] else s
  }

  predicate Free(s: string, c: char) {
    c !in s
  }

  /** `strings.Index(s, c)`, with `None` for -1. */
  function IndexOf(s: string, c: char): (r: Option<nat>)
    ensures r.Some? ==> r.value < |s| && s[r.value] == c && Free(s[..r.value], c)
    ensures r.None? ==> Free(s, c)
  {
    if s == "" then None
    else if s[0] == c then Some(0)
    else match IndexOf(s[1..], c)
      case None => None
      case Some(i) => assert s[..i + 1] == [s[0]] + s[1..][..i]; Some(i + 1)
  }

  lemma IndexOfFirst(s: string, rest: string, c: char)
    requires Free(s, c)
    ensures IndexOf(s + [c] + rest, c) == Some(|s|)
  {
    var t := s + [c] + rest;
    var r := IndexOf(t, c);
    assert t[|s|] == c;
    assert forall i :: 0 <= i < |s| ==> t[i] == s[i] && s[i] in s;
    assert forall k :: |s| < k <= |t| ==> t[..k][|s|] == c;
  }

  function Split(s: string, sep: char): (r: seq<string>)
    ensures |r| >= 1
    ensures forall i :: 0 <= i < |r| ==> Free(r[i], sep)
  {
    if s == "" then [""]
    else
      var rest := Split(s[1..], sep);
      if s[0] == sep then [""] + rest else [[s[0]] + rest[0]] + rest[1..]
  }

  function Join(parts: seq<string>, sep: string): string {
    if parts == [] then ""
    else if |parts| == 1 then parts[0]
    else parts[0] + sep + Join(parts[1..], sep)
  }

  lemma {:induction false} SplitJoin(parts: seq<string>, sep: char)
    requires parts != [] && forall i :: 0 <= i < |parts| ==> Free(parts[i], sep)
    ensures Split(Join(parts, [sep]), sep) == parts
  {
    if |parts| == 1 {
      SplitFree(parts[0], sep);
    } else {
      SplitJoin(parts[1..], sep);
      SplitCons(parts[0], Join(parts[1..], [sep]), sep);
      assert Join(parts, [sep]) == parts[0] + [sep] + Join(parts[1..], [sep]);
    }
  }

  lemma {:induction false} SplitFree(s: string, sep: char)
    requires Free(s, sep)
    ensures Split(s, sep) == [s]
  {
    if s != "" {
      assert s == [s[0]] + s[1..];
      SplitFree(s[1..], sep);
    }
  }

  lemma {:induction false} SplitCons(s: string, rest: string, sep: char)
    requires Free(s, sep)
    ensures Split(s + [sep] + rest, sep) == [s] + Split(rest, sep)
  {
    if s == "" {
      assert (s + [sep] + rest)[1..] == rest;
    } else {
      assert s == [s[0]] + s[1..];
      assert (s + [sep] + rest)[1..] == s[1..] + [sep] + rest;
      SplitCons(s[1..], rest, sep);
    }
  }

  lemma {:induction false} JoinSplit(s: string, sep: char)
    ensures Join(Split(s, sep), [sep]) == s
  {
    if s != "" {
      var rest := Split(s[1..], sep);
      JoinSplit(s[1..], sep);
      if s[0] == sep {
        assert ([""] + rest)[1..] == rest;
      } else {
        var r := [[s[0]] + rest[0]] + rest[1..];
        assert r[1..] == rest[1..];
        assert s == [s[0]] + s[1..];
      }
    }
  }

  lemma JoinCons(head: string, tail: seq<string>, sep: string)
    requires tail != []
    ensures Join([head] + tail, sep) == head + sep + Join(tail, sep)
  {
    assert ([head] + tail)[1..] == tail;
  }

  // ---- integers -------------------------------------------------------------

  predicate IsDigit(c: char) { '0' <= c <= '9' }

  predicate AllDigits(s: string) {
    forall i :: 0 <= i < |s| ==> IsDigit(s[i])
  }

  /** `strconv.FormatUint(n, 10)`. */
  function Decimal(n: nat): (s: string)
    ensures s != "" && AllDigits(s)
  {
    var last := ['0' + (n % 10) as char];
    if n < 10 then last else Decimal(n / 10) + last
  }

  function DigitsValue(s: string): nat
    requires AllDigits(s)
  {
    if s == "" then 0 else 10 * DigitsValue(s[..|s| - 1]) + (s[|s| - 1] as int - '0' as int)
  }

  lemma {:induction false} DigitsOfDecimal(n: nat)
    ensures DigitsValue(Decimal(n)) == n
  {
    var s := Decimal(n);
    if n >= 10 {
      assert s[..|s| - 1] == Decimal(n / 10);
      DigitsOfDecimal(n / 10);
    }
  }

  const MAX_INT64 := 0x7fff_ffff_ffff_ffff

  /** `strconv.ParseInt(s, 10, 64)` and `strconv.Atoi`, with `None` for a syntax or range error. */
  function ParseInt(s: string): Option<int> {
    if s == "" then None
    else
      var body := if s[0] == '-' || s[0] == '+' then s[1..] else s;
      if body == "" || !AllDigits(body) then None
      else
        var n: int := DigitsValue(body);
        var v := if s[0] == '-' then -n else n;
        if -MAX_INT64 - 1 <= v <= MAX_INT64 then Some(v) else None
  }

  /** An optional sign and digits, whose value fits into 64 bits. */
  lemma ParseIntExactly(s: string, n: int)
    ensures ParseInt(s) == Some(n) <==>
            -MAX_INT64 - 1 <= n <= MAX_INT64 &&
            exists digits ::
              && digits != "" && AllDigits(digits)
              && ((n == DigitsValue(digits) && (s == digits || s == "+" + digits))
                  || (n + DigitsValue(digits) == 0 && s == "-" + digits))
  {
    if ParseInt(s) == Some(n) {
      var body := if s[0] == '-' || s[0] == '+' then s[1..] else s;
      assert s[0] == '-' ==> s == "-" + body;
      assert s[0] == '+' ==> s == "+" + body;
    }
    if digits :|
      && digits != "" && AllDigits(digits)
      && ((n == DigitsValue(digits) && (s == digits || s == "+" + digits))
          || (n + DigitsValue(digits) == 0 && s == "-" + digits)) {
      assert IsDigit(digits[0]);
      assert ("+" + digits)[1..] == digits && ("-" + digits)[1..] == digits;
      hide DigitsValue;
    }
  }

  function Itoa(n: int): (s: string)
    ensures s != ""
    ensures forall i :: 0 <= i < |s| ==> IsDigit(s[i]) || s[i] == '-'
  {
    if n < 0 then "-" + Decimal(-n) else Decimal(n)
  }

  lemma ParseItoa(n: int)
    requires -MAX_INT64 - 1 <= n <= MAX_INT64
    ensures ParseInt(Itoa(n)) == Some(n)
  {
    if n < 0 {
      DigitsOfDecimal(-n);
      assert Itoa(n)[1..] == Decimal(-n);
    } else {
      DigitsOfDecimal(n);
      assert IsDigit(Decimal(n)[0]);
    }
  }

  lemma ItoaInjective(m: int, n: int)
    ensures Itoa(m) == Itoa(n) ==> m == n
  {
    if Itoa(m) == Itoa(n) {
      if m < 0 { DigitsOfDecimal(-m); assert Itoa(m)[1..] == Decimal(-m); } else { DigitsOfDecimal(m); assert IsDigit(Itoa(m)[0]); }
      if n < 0 { DigitsOfDecimal(-n); assert Itoa(n)[1..] == Decimal(-n); } else { DigitsOfDecimal(n); assert IsDigit(Itoa(n)[0]); }
    }
  }
}
