/** The byte-string library functions the core relies on: strings.ToLower,
    strings.Contains, strings.TrimSpace, strings.Join and
    template.HTMLEscapeString, each restricted to what the core needs, with
    the reference definitions (substring by index, Split, unescaping) that
    pin down what they compute. */
module Text {
  import opened Model

  /** An ASCII upper-case letter. */
  predicate IsUpper(c: char) { 'A' <= c <= 'Z' }

  function LowerByte(c: char): (d: char)
    ensures !IsUpper(d)
    ensures IsUpper(c) ==> d as int == c as int + 32
    ensures !IsUpper(c) ==> d == c
  {
    if IsUpper(c) then (c as int + 32) as char else c
  }

  /** strings.ToLower on ASCII letters; every other byte is kept. */
  function ToLower(s: string): (r: string)
    ensures |r| == |s|
    ensures forall i :: 0 <= i < |s| ==> r[i] == LowerByte(s[i])
  {
    seq(|s|, i requires 0 <= i < |s| => LowerByte(s[i]))
  }

  /** strings.Contains: `sub` occurs in `s` (the empty string occurs everywhere). */
  predicate Contains(s: string, sub: string)
    decreases |s|
  {
    sub <= s || (s != [] && Contains(s[1..], sub))
  }

  /** `sub` occurs in `s` starting at byte `i`. */
  predicate OccursAt(s: string, sub: string, i: int) {
    0 <= i <= |s| - |sub| && s[i..i + |sub|] == sub
  }

  /** Contains agrees with the index-based definition of a substring. */
  lemma {:induction false} ContainsAt(s: string, sub: string)
    ensures Contains(s, sub) <==> exists i :: OccursAt(s, sub, i)
    decreases |s|
  {
    if sub <= s {
      assert OccursAt(s, sub, 0);
    } else if s == [] {
      assert forall i :: !OccursAt(s, sub, i);
    } else {
      ContainsAt(s[1..], sub);
      if exists i :: OccursAt(s, sub, i) {
        var i :| OccursAt(s, sub, i);
        assert i != 0;
        assert s[1..][i - 1..i - 1 + |sub|] == sub;
        assert OccursAt(s[1..], sub, i - 1);
      }
      if Contains(s[1..], sub) {
        var i :| OccursAt(s[1..], sub, i);
        assert s[i + 1..i + 1 + |sub|] == sub;
        assert OccursAt(s, sub, i + 1);
      }
    }
  }

  /** A string that contains "reporter" contains "report": the second test in
      cmd/design-on-trial.go:58 never decides anything. */
  lemma ReporterContainsReport(s: string)
    ensures Contains(s, "reporter") ==> Contains(s, "report")
  {
    ContainsAt(s, "reporter");
    ContainsAt(s, "report");
    if Contains(s, "reporter") {
      var i :| OccursAt(s, "reporter", i);
      assert s[i..i + 6] == s[i..i + 8][..6];
      assert OccursAt(s, "report", i);
    }
  }

  /** The ASCII white space that strings.TrimSpace removes. */
  predicate IsSpace(c: char) {
    c == ' ' || c == '\t' || c == '\n' || c == '\r' || c == '\U{0B}' || c == '\U{0C}'
  }

  function TrimLeft(s: string): (r: string)
    ensures |r| <= |s| && r == s[|s| - |r|..]
    ensures r == [] || !IsSpace(r[0])
    ensures forall i :: 0 <= i < |s| - |r| ==> IsSpace(s[i])
    decreases |s|
  {
    if s != [] && IsSpace(s[0]) then TrimLeft(s[1..]) else s
  }

  function TrimRight(s: string): (r: string)
    ensures |r| <= |s| && r == s[..|r|]
    ensures r == [] || !IsSpace(r[|r| - 1])
    ensures forall i :: |r| <= i < |s| ==> IsSpace(s[i])
    decreases |s|
  {
    if s != [] && IsSpace(s[|s| - 1]) then TrimRight(s[..|s| - 1]) else s
  }

  /** `r` is `s` with the bytes before `i` and after `i + |r|` dropped, and
      every dropped byte is white space. */
  predicate TrimmedFrom(s: string, r: string, i: int) {
    0 <= i <= |s| - |r| && r == s[i..i + |r|]
    && (forall k :: 0 <= k < i ==> IsSpace(s[k]))
    && (forall k :: i + |r| <= k < |s| ==> IsSpace(s[k]))
  }

  lemma DropBoth(s: string, l: string, r: string, i: nat)
    requires i <= |s| && l == s[i..] && |r| <= |l| && r == l[..|r|]
    requires forall k :: 0 <= k < i ==> IsSpace(s[k])
    requires forall k :: |r| <= k < |l| ==> IsSpace(l[k])
    ensures TrimmedFrom(s, r, i)
  {
    forall k | i + |r| <= k < |s|
      ensures IsSpace(s[k])
    {
      assert s[k] == l[k - i];
    }
  }

  lemma TrimBothSides(s: string)
    ensures TrimmedFrom(s, TrimRight(TrimLeft(s)), |s| - |TrimLeft(s)|)
  {
    var l := TrimLeft(s);
    DropBoth(s, l, TrimRight(l), |s| - |l|);
  }

  /** strings.TrimSpace: the slice of `s` that neither starts nor ends with
      white space, obtained by dropping only white space. */
  function TrimSpace(s: string): (r: string)
    ensures r == [] || (!IsSpace(r[0]) && !IsSpace(r[|r| - 1]))
    ensures exists i :: TrimmedFrom(s, r, i)
  {
    TrimBothSides(s);
    TrimRight(TrimLeft(s))
  }

  /** strings.Join. */
  function Join(parts: seq<string>, sep: string): (r: string)
    decreases |parts|
  {
    if |parts| == 0 then ""
    else if |parts| == 1 then parts[0]
    else Join(parts[..|parts| - 1], sep) + sep + parts[|parts| - 1]
  }

  /** The index of the last `c` in `s`, if any (strings.LastIndexByte). */
  function LastIndex(s: string, c: char): (r: Option<nat>)
    ensures r.None? ==> c !in s
    ensures r.Some? ==> r.value < |s| && s[r.value] == c && c !in s[r.value + 1..]
    decreases |s|
  {
    if s == [] then None
    else if s[|s| - 1] == c then Some(|s| - 1)
    else
      var r := LastIndex(s[..|s| - 1], c);
      assert s == s[..|s| - 1] + [s[|s| - 1]];
      assert r.Some? ==> s[r.value + 1..] == s[..|s| - 1][r.value + 1..] + [s[|s| - 1]];
      r
  }

  /** A `c` with none after it is the last one. */
  lemma LastIndexAt(s: string, c: char, i: nat)
    requires i < |s| && s[i] == c && c !in s[i + 1..]
    ensures LastIndex(s, c) == Some(i)
  {
    assert s[i] in s;
  }

  /** Cutting at every occurrence of `c` (strings.Split with a one-byte
      separator), from the last cut backwards: the reference against which
      Join is checked. */
  function Split(s: string, c: char): (r: seq<string>)
    ensures |r| >= 1
    decreases |s|
  {
    match LastIndex(s, c)
    case None => [s]
    case Some(i) => Split(s[..i], c) + [s[i + 1..]]
  }

  /** Join and Split are inverse when no part contains the separator: the
      joined text holds exactly the parts, in order. */
  lemma {:induction false} SplitJoin(parts: seq<string>, c: char)
    requires |parts| >= 1
    requires forall i :: 0 <= i < |parts| ==> c !in parts[i]
    ensures Split(Join(parts, [c]), c) == parts
    decreases |parts|
  {
    if |parts| > 1 {
      var init, last := parts[..|parts| - 1], parts[|parts| - 1];
      var j := Join(init, [c]);
      var p := j + [c] + last;
      assert p == Join(parts, [c]);
      assert p[|j|] == c && p[|j| + 1..] == last && p[..|j|] == j;
      LastIndexAt(p, c, |j|);
      SplitJoin(init, c);
      assert init + [last] == parts;
    }
  }

  /** A non-empty join ends with its last part: no separator is added after it. */
  lemma JoinEndsWithLast(parts: seq<string>, sep: string)
    requires |parts| >= 1
    ensures var r := Join(parts, sep); |parts[|parts| - 1]| <= |r| && r[|r| - |parts[|parts| - 1]|..] == parts[|parts| - 1]
  {
  }

  /** A non-empty join starts with its first part. */
  lemma {:induction false} JoinStartsWithFirst(parts: seq<string>, sep: string)
    requires |parts| >= 1
    ensures parts[0] <= Join(parts, sep)
    decreases |parts|
  {
    if |parts| > 1 {
      JoinStartsWithFirst(parts[..|parts| - 1], sep);
    }
  }

  /** U+FFFD in UTF-8, which template.HTMLEscapeString writes for a NUL byte. */
  const ReplacementChar: string := "\U{EF}\U{BF}\U{BD}"

  /** The bytes that could break out of HTML text or an attribute value. */
  predicate IsMarkup(c: char) {
    c == '<' || c == '>' || c == '"' || c == '\'' || c == '\0'
  }

  function EscapeByte(c: char): (r: string)
    ensures forall i :: 0 <= i < |r| ==> !IsMarkup(r[i])
  {
    if c == '\0' then ReplacementChar
    else if c == '"' then "&#34;"
    else if c == '\'' then "&#39;"
    else if c == '&' then "&amp;"
    else if c == '<' then "&lt;"
    else if c == '>' then "&gt;"
    else [c]
  }

  /** template.HTMLEscapeString: the result holds no markup byte. */
  function HtmlEscape(s: string): (r: string)
    ensures forall i :: 0 <= i < |r| ==> !IsMarkup(r[i])
    decreases |s|
  {
    if s == [] then "" else EscapeByte(s[0]) + HtmlEscape(s[1..])
  }

  /** Decoding of the five entities HtmlEscape writes. */
  function HtmlUnescape(s: string): (r: string)
    decreases |s|
  {
    if s == [] then ""
    else if |s| >= 4 && s[..4] == "&lt;" then "<" + HtmlUnescape(s[4..])
    else if |s| >= 4 && s[..4] == "&gt;" then ">" + HtmlUnescape(s[4..])
    else if |s| >= 5 && s[..5] == "&amp;" then "&" + HtmlUnescape(s[5..])
    else if |s| >= 5 && s[..5] == "&#39;" then "'" + HtmlUnescape(s[5..])
    else if |s| >= 5 && s[..5] == "&#34;" then "\"" + HtmlUnescape(s[5..])
    else [s[0]] + HtmlUnescape(s[1..])
  }

  lemma UnescapeByte(c: char, rest: string)
    requires c != '\0'
    ensures HtmlUnescape(EscapeByte(c) + rest) == [c] + HtmlUnescape(rest)
  {
    var s := EscapeByte(c) + rest;
    if c == '"' || c == '\'' || c == '&' {
      assert s[..4][1] == s[1] == EscapeByte(c)[1];
      assert s[..5] == EscapeByte(c);
      assert s[5..] == rest;
    } else if c == '<' || c == '>' {
      assert s[..4] == EscapeByte(c);
      assert s[4..] == rest;
    } else {
      assert s[0] == c && s[1..] == rest;
      assert |s| >= 4 ==> s[..4][0] == c;
      assert |s| >= 5 ==> s[..5][0] == c;
    }
  }

  /** Escaping loses nothing: the title text can be recovered from the page
      (a NUL byte is the one exception, it becomes U+FFFD). */
  lemma {:induction false} UnescapeEscape(s: string)
    requires '\0' !in s
    ensures HtmlUnescape(HtmlEscape(s)) == s
    decreases |s|
  {
    if s != [] {
      UnescapeEscape(s[1..]);
      UnescapeByte(s[0], HtmlEscape(s[1..]));
    }
  }
}
