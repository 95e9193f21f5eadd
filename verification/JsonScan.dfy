/**
 The array walker and the string extractor of src/agent/shared/jsonutil.cpp.

 A text is a C string: reading at or past its end gives NUL.  The scanners are specified on the
 rest of the text (`text[cursor..]`), the methods walk an index as the source walks a pointer.

 `Scan` is the brace counter with its in-string flag, `NextElement` one call of the walker and `Collect` the
 calls of its caller's loop.  `ValueText` finds the value of a key, `ReadValue` copies it; neither looks at
 the nesting of objects.
 */
module JsonScan {
  import opened JsonText

  function At(t: string, i: nat): char {
    if i < |t| then t[i] else NUL
  }

  predicate IsBlank(c: char) { c == ' ' || c == '\t' || c == '\n' || c == '\r' }

  predicate IsSeparator(c: char) { IsBlank(c) || c == '[' || c == ',' }

  function SkipSeparators(t: string): (n: nat)
    ensures n <= |t|
    ensures !IsSeparator(At(t, n))
    ensures forall i :: 0 <= i < n ==> IsSeparator(t[i])
  {
    if t != [] && IsSeparator(t[0]) then 1 + SkipSeparators(t[1..]) else 0
  }

  /** How many bytes of `t` the walker passes before the brace depth is back to zero or the text ends. */
  function Scan(t: string, depth: int, inString: bool): (n: nat)
    ensures n <= |t|
    decreases |t|
  {
    if At(t, 0) == NUL then 0
    else if inString then
      if t[0] == '\\' && At(t, 1) != NUL then 2 + Scan(t[2..], depth, true)
      else 1 + Scan(t[1..], depth, t[0] != '"')
    else if t[0] == '"' then 1 + Scan(t[1..], depth, true)
    else if t[0] == '{' then 1 + Scan(t[1..], depth + 1, false)
    else if t[0] == '}' && depth == 1 then 1
    else 1 + Scan(t[1..], if t[0] == '}' then depth - 1 else depth, false)
  }

  /** What one call finds at the front of the rest of the text. */
  datatype Element = NoElement(skipped: nat) | Element(obj: string, consumed: nat)

  function NextElement(t: string): (e: Element)
    ensures e.Element? ==> 0 < e.consumed <= |t|
    ensures e.NoElement? ==> e.skipped <= |t|
  {
    var k := SkipSeparators(t);
    if At(t, k) != '{' then NoElement(k)
    else
      var n := Scan(t[k..], 0, false);
      assert At(t[k..], 0) == '{';
      Element(t[k..k + n], k + n)
  }

  /** The separator loop. */
  method PassSeparators(text: string, cursor: nat) returns (p: nat)
    requires cursor <= |text|
    ensures p == cursor + SkipSeparators(text[cursor..])
  {
    p := cursor;
    while IsSeparator(At(text, p))
      invariant cursor <= p <= |text|
      invariant SkipSeparators(text[cursor..]) == p - cursor + SkipSeparators(text[p..])
      decreases |text| - p
    {
      assert text[p..][1..] == text[p + 1..];
      p := p + 1;
    }
    assert At(text[p..], 0) == At(text, p);
  }

  /** The brace-counting loop: the place right behind the object that begins at `start`. */
  method ObjectEnd(text: string, start: nat) returns (p: nat)
    requires start <= |text|
    ensures p == start + Scan(text[start..], 0, false)
  {
    p := start;
    var depth := 0;
    var inString := false;
    while At(text, p) != NUL
      invariant start <= p <= |text|
      invariant Scan(text[start..], 0, false) == p - start + Scan(text[p..], depth, inString)
      decreases |text| - p
    {
      var c := text[p];
      if inString {
        if c == '\\' && At(text, p + 1) != NUL {
          p := p + 2;
          continue;
        }
        if c == '"' { inString := false; }
        p := p + 1;
        continue;
      }
      if c == '"' {
        inString := true;
        p := p + 1;
        continue;
      }
      if c == '{' { depth := depth + 1; }
      if c == '}' {
        depth := depth - 1;
        if depth == 0 {
          p := p + 1;
          return;
        }
      }
      p := p + 1;
    }
  }

  /** What is at the front of the rest of the text, told by the index of the pointer. */
  lemma NextAt(text: string, cursor: nat, start: nat)
    requires cursor <= |text| && start == cursor + SkipSeparators(text[cursor..])
    ensures start <= |text|
    ensures var end := start + Scan(text[start..], 0, false);
            NextElement(text[cursor..])
            == if At(text, start) != '{' then NoElement(start - cursor) else Element(text[start..end], end - cursor)
  {
    var t, k := text[cursor..], start - cursor;
    assert At(t, k) == At(text, start);
    assert t[k..] == text[start..];
    var n := Scan(text[start..], 0, false);
    assert t[k..k + n] == text[start..start + n];
  }

  /** `json_array_next`: the next object, cut to the caller's buffer, and the cursor behind it. */
  method JsonArrayNext(text: string, cursor: nat, objSize: nat) returns (found: bool, obj: string, next: nat)
    requires cursor <= |text| && 0 < objSize
    ensures cursor <= next <= |text|
    ensures var e := NextElement(text[cursor..]);
            && (found <==> e.Element?)
            && next == cursor + (if found then e.consumed else e.skipped)
            && obj == if !found then [] else if |e.obj| < objSize then e.obj else e.obj[..objSize - 1]
  {
    var start := PassSeparators(text, cursor);
    NextAt(text, cursor, start);
    if At(text, start) != '{' {
      return false, [], start;
    }
    next := ObjectEnd(text, start);
    var len := next - start;
    if len >= objSize { len := objSize - 1; }
    obj := text[start..start + len];
    assert obj == text[start..next][..len];
    found := true;
  }

  /** All the objects a caller collects by calling until nothing is found. */
  function Collect(t: string): seq<string>
    decreases |t|
  {
    match NextElement(t)
    case NoElement(_) => []
    case Element(obj, n) => [obj] + Collect(t[n..])
  }

  /** One more call of the walker, told by the index of the cursor. */
  lemma CollectStep(text: string, cursor: nat, next: nat, obj: string)
    requires cursor <= next <= |text| && NextElement(text[cursor..]) == Element(obj, next - cursor)
    ensures Collect(text[cursor..]) == [obj] + Collect(text[next..])
  {
    assert text[cursor..][next - cursor..] == text[next..];
  }

  /** The loop of every caller: `while (json_array_next(&cursor, obj, sizeof(obj)))`. */
  method CollectElements(text: string, objSize: nat) returns (objs: seq<string>)
    requires 0 < objSize
    requires forall o :: o in Collect(text) ==> |o| < objSize
    ensures objs == Collect(text)
  {
    objs := [];
    var cursor := 0;
    assert text[0..] == text;
    while true
      invariant cursor <= |text|
      invariant Collect(text) == objs + Collect(text[cursor..])
      decreases |text| - cursor
    {
      var found, obj, next := JsonArrayNext(text, cursor, objSize);
      if !found { break; }
      ghost var whole := NextElement(text[cursor..]).obj;
      CollectStep(text, cursor, next, whole);
      TakeOne(objs, whole, Collect(text[next..]));
      objs := objs + [obj];
      cursor := next;
    }
  }

  lemma TakeOne(objs: seq<string>, o: string, rest: seq<string>)
    ensures objs + ([o] + rest) == (objs + [o]) + rest
    ensures o in objs + ([o] + rest)
  {
    assert (objs + ([o] + rest))[|objs|] == o;
  }

  // ---------------------------------------------------------------------------------------------
  // Scanning well-formed pieces
  // ---------------------------------------------------------------------------------------------

  /** Text outside strings that has no quote, no brace and no NUL. */
  ghost predicate Plain(s: string) {
    forall i :: 0 <= i < |s| ==> s[i] != '"' && s[i] != '{' && s[i] != '}' && s[i] != NUL
  }

  lemma {:induction false} ScanPlain(s: string, rest: string, depth: int)
    requires Plain(s)
    ensures Scan(s + rest, depth, false) == |s| + Scan(rest, depth, false)
  {
    if s == [] {
      assert s + rest == rest;
    } else {
      assert (s + rest)[1..] == s[1..] + rest;
      ScanPlain(s[1..], rest, depth);
    }
  }

  /** Text inside a string without quote, backslash or NUL. */
  ghost predicate Inner(s: string) {
    forall i :: 0 <= i < |s| ==> s[i] != '"' && s[i] != '\\' && s[i] != NUL
  }

  lemma {:induction false} ScanInner(s: string, rest: string, depth: int)
    requires Inner(s)
    ensures Scan(s + rest, depth, true) == |s| + Scan(rest, depth, true)
  {
    if s == [] {
      assert s + rest == rest;
    } else {
      assert (s + rest)[1..] == s[1..] + rest;
      ScanInner(s[1..], rest, depth);
    }
  }

  /** `\u` and four more characters. */
  lemma ScanUnicode(a: char, b: char, c: char, d: char, rest: string, depth: int)
    requires Inner([a]) && Inner([b]) && Inner([c]) && Inner([d])
    ensures Scan(['\\', 'u', a, b, c, d] + rest, depth, true) == 6 + Scan(rest, depth, true)
  {
    var t := ['\\', 'u', a, b, c, d] + rest;
    assert t[2..] == [a, b, c, d] + rest;
    assert [a][0] == a && [b][0] == b && [c][0] == c && [d][0] == d;
    ScanInner([a, b, c, d], rest, depth);
  }

  /** The walker never leaves a string inside the escape of one character. */
  lemma ScanEscapedChar(c: char, rest: string, depth: int)
    ensures Scan(EscapeChar(c) + rest, depth, true) == |EscapeChar(c)| + Scan(rest, depth, true)
  {
    var t := EscapeChar(c) + rest;
    if |EscapeChar(c)| == 1 {
      assert t[1..] == rest;
    } else if |EscapeChar(c)| == 2 {
      assert t[2..] == rest;
    } else {
      var hi, lo := HexDigit(c as int / 16), HexDigit(c as int % 16);
      assert EscapeChar(c) == ['\\', 'u', '0', '0', hi, lo];
      ScanUnicode('0', '0', hi, lo, rest, depth);
    }
  }

  lemma {:induction false} ScanEscaped(s: string, rest: string, depth: int)
    ensures Scan(Escape(s) + rest, depth, true) == |Escape(s)| + Scan(rest, depth, true)
  {
    if s == [] {
      assert Escape(s) + rest == rest;
    } else {
      assert Escape(s) + rest == EscapeChar(s[0]) + (Escape(s[1..]) + rest);
      ScanEscapedChar(s[0], Escape(s[1..]) + rest, depth);
      ScanEscaped(s[1..], rest, depth);
    }
  }

  lemma ScanQuote(rest: string, depth: int, inString: bool)
    ensures Scan("\"" + rest, depth, inString) == 1 + Scan(rest, depth, !inString)
  {
    assert ("\"" + rest)[1..] == rest;
  }

  lemma ScanPlainChar(c: char, rest: string, depth: int)
    requires Plain([c])
    ensures Scan([c] + rest, depth, false) == 1 + Scan(rest, depth, false)
  {
    assert [c][0] == c;
    ScanPlain([c], rest, depth);
  }

  /** A quoted key and its colon. */
  lemma ScanKey(key: string, rest: string, depth: int)
    requires Inner(key)
    ensures Scan("\"" + (key + ("\"" + (":" + rest))), depth, false) == |key| + 3 + Scan(rest, depth, false)
  {
    ScanQuote(key + ("\"" + (":" + rest)), depth, false);
    ScanInner(key, "\"" + (":" + rest), depth);
    ScanQuote(":" + rest, depth, true);
    ScanPlainChar(':', rest, depth);
  }

  // ---------------------------------------------------------------------------------------------
  // Walking a written array
  // ---------------------------------------------------------------------------------------------

  function Join(objs: seq<string>): string {
    if objs == [] then "" else if |objs| == 1 then objs[0] else objs[0] + ("," + Join(objs[1..]))
  }

  lemma {:induction false} JoinLast(objs: seq<string>, o: string)
    ensures Join(objs + [o]) == if objs == [] then o else Join(objs) + ("," + o)
  {
    var all := objs + [o];
    if |objs| > 1 {
      assert all[1..] == objs[1..] + [o];
      JoinLast(objs[1..], o);
      Assoc3(objs[0], ",", Join(objs[1..]), "," + o);
    } else if |objs| == 1 {
      assert all[1..] == [o];
    }
  }

  lemma NextPastSeparator(c: char, t: string)
    requires IsSeparator(c)
    ensures NextElement([c] + t) ==
      match NextElement(t) case NoElement(k) => NoElement(k + 1) case Element(o, n) => Element(o, n + 1)
  {
    var u, k := [c] + t, SkipSeparators(t);
    assert u[1..] == t;
    assert SkipSeparators(u) == k + 1;
    assert At(u, k + 1) == At(t, k) && u[k + 1..] == t[k..];
    if At(t, k) == '{' {
      var n := Scan(t[k..], 0, false);
      assert u[k + 1..k + 1 + n] == t[k..k + n];
    }
  }

  lemma CollectPastSeparator(c: char, t: string)
    requires IsSeparator(c)
    ensures Collect([c] + t) == Collect(t)
  {
    NextPastSeparator(c, t);
    match NextElement(t)
    case NoElement(_) =>
    case Element(o, n) => assert ([c] + t)[n + 1..] == t[n..];
  }

  lemma CollectEnd()
    ensures Collect("]") == []
  {
    var t := "]";
    assert t[0] == ']' && !IsSeparator(t[0]);
    assert SkipSeparators(t) == 0 && At(t, 0) == ']';
    assert NextElement(t) == NoElement(0);
  }

  ghost predicate Recognised(o: string) {
    forall rest: string {:trigger NextElement(o + rest)} :: NextElement(o + rest) == Element(o, |o|)
  }

  lemma CollectComma(o: string, tail: string)
    requires Recognised(o)
    ensures Collect(o + ("," + tail)) == [o] + Collect(tail)
  {
    assert NextElement(o + ("," + tail)) == Element(o, |o|);
    CollectPastSeparator(',', tail);
    assert [','] + tail == "," + tail;
  }

  lemma CollectLast(o: string)
    requires Recognised(o)
    ensures Collect(o + "]") == [o]
  {
    assert NextElement(o + "]") == Element(o, |o|);
    CollectEnd();
  }

  /** Texts that the walker recognises whatever follows them come back in order. */
  lemma {:induction false} CollectJoined(objs: seq<string>)
    requires forall i :: 0 <= i < |objs| ==> Recognised(objs[i])
    ensures Collect(Join(objs) + "]") == objs
  {
    if |objs| == 0 {
      CollectEnd();
      assert Join(objs) + "]" == "]";
    } else if |objs| == 1 {
      CollectLast(objs[0]);
    } else {
      var o, more := objs[0], objs[1..];
      CollectJoined(more);
      Assoc3(o, ",", Join(more), "]");
      CollectComma(o, Join(more) + "]");
    }
  }

  /** Blanks and commas, as many as one likes. */
  predicate IsGap(s: string) {
    forall i :: 0 <= i < |s| ==> s[i] == ' ' || s[i] == '\t' || s[i] == '\n' || s[i] == '\r' || s[i] == ','
  }

  function Spaced(objs: seq<string>, gaps: seq<string>): string
    requires |gaps| == |objs|
  {
    if objs == [] then "" else gaps[0] + (objs[0] + Spaced(objs[1..], gaps[1..]))
  }

  lemma {:induction false} CollectPastGap(gap: string, t: string)
    requires IsGap(gap)
    ensures Collect(gap + t) == Collect(t)
  {
    if gap == "" {
      assert gap + t == t;
    } else {
      assert gap + t == [gap[0]] + (gap[1..] + t);
      CollectPastSeparator(gap[0], gap[1..] + t);
      CollectPastGap(gap[1..], t);
    }
  }

  lemma CollectNext(gap: string, o: string, tail: string)
    requires IsGap(gap) && Recognised(o)
    ensures Collect(gap + (o + tail)) == [o] + Collect(tail)
  {
    CollectPastGap(gap, o + tail);
    assert NextElement(o + tail) == Element(o, |o|);
    assert (o + tail)[|o|..] == tail;
  }

  /** However an array is laid out, with any blanks and line ends about its commas, its objects come back in order. */
  lemma {:induction false} CollectSpaced(objs: seq<string>, gaps: seq<string>, end: string)
    requires |gaps| == |objs| && IsGap(end)
    requires forall i :: 0 <= i < |objs| ==> Recognised(objs[i]) && IsGap(gaps[i])
    ensures Collect(Spaced(objs, gaps) + (end + "]")) == objs
  {
    var t := end + "]";
    if objs == [] {
      CollectPastGap(end, "]");
      CollectEnd();
      assert Spaced(objs, gaps) + t == t;
    } else {
      CollectSpaced(objs[1..], gaps[1..], end);
      CollectNext(gaps[0], objs[0], Spaced(objs[1..], gaps[1..]) + t);
      SpacedThen(gaps[0], objs[0], Spaced(objs[1..], gaps[1..]), t);
    }
  }

  /** The same with the bracket that opens the array. */
  lemma CollectBracketed(objs: seq<string>, gaps: seq<string>, end: string)
    requires |gaps| == |objs| && IsGap(end)
    requires forall i :: 0 <= i < |objs| ==> Recognised(objs[i]) && IsGap(gaps[i])
    ensures Collect("[" + (Spaced(objs, gaps) + (end + "]"))) == objs
  {
    var t := Spaced(objs, gaps) + (end + "]");
    CollectSpaced(objs, gaps, end);
    CollectPastSeparator('[', t);
    assert ['['] + t == "[" + t;
  }

  lemma SpacedThen(gap: string, o: string, more: string, t: string)
    ensures (gap + (o + more)) + t == gap + (o + (more + t))
  {
  }

  // ---------------------------------------------------------------------------------------------
  // Extracting a string value
  // ---------------------------------------------------------------------------------------------

  /** `strstr`: the first place where the pattern begins. */
  function Find(t: string, pattern: string): (p: Option<nat>)
    ensures p.Some? ==> p.value + |pattern| <= |t| && pattern <= t[p.value..]
  {
    if pattern <= t then Some(0)
    else if t == [] then None
    else
      match Find(t[1..], pattern)
      case None => None
      case Some(k) => assert t[1..][k..] == t[k + 1..]; Some(k + 1)
  }

  function SkipBlanks(t: string): (n: nat)
    ensures n <= |t|
  {
    if t != [] && IsBlank(t[0]) then 1 + SkipBlanks(t[1..]) else 0
  }

  /** The text behind the first ':' and any blanks. */
  function BehindColon(t: string): Option<string> {
    match Find(t, ":")
    case None => None
    case Some(q) => var v := t[q + 1..]; Some(v[SkipBlanks(v)..])
  }

  /** `find_value_pos`: the text from the value on, behind the first ':' after the quoted key. */
  function ValueText(json: string, key: string): Option<string> {
    match Find(json, "\"" + key + "\"")
    case None => None
    case Some(p) => BehindColon(json[p + |key| + 2..])
  }

  /** The value loop: a backslash only quotes the byte behind it; `room` bytes are left. */
  function ReadValue(t: string, room: nat): string
    decreases |t|
  {
    if room == 0 || At(t, 0) == NUL || t[0] == '"' then []
    else if t[0] == '\\' && At(t, 1) != NUL then [t[1]] + ReadValue(t[2..], room - 1)
    else [t[0]] + ReadValue(t[1..], room - 1)
  }

  /** The value must be a string; it is cut to the caller's buffer. */
  function StringValue(v: Option<string>, outSize: nat): Option<string>
    requires 0 < outSize
  {
    if v.None? || At(v.value, 0) != '"' then None else Some(ReadValue(v.value[1..], outSize - 1))
  }

  function ExtractString(json: string, key: string, outSize: nat): Option<string>
    requires 0 < outSize
  {
    StringValue(ValueText(json, key), outSize)
  }

  lemma FindSecond(c: char, pattern: string, rest: string)
    requires pattern != "" && pattern[0] != c
    ensures Find([c] + (pattern + rest), pattern) == Some(1)
  {
    var t := [c] + (pattern + rest);
    assert t[0] == c && t[1..] == pattern + rest;
    assert Find(t[1..], pattern) == Some(0);
  }

  /** A key behind the opening brace, its colon, and a value that is a string. */
  lemma FirstValue(key: string, v: string)
    requires v != "" && !IsBlank(v[0])
    ensures ValueText(['{'] + (("\"" + key + "\"") + (":" + v)), key) == Some(v)
  {
    var pattern := "\"" + key + "\"";
    var json := ['{'] + (pattern + (":" + v));
    FindSecond('{', pattern, ":" + v);
    assert json[1 + |key| + 2..] == ":" + v;
    assert (":" + v)[1..] == v && v[0..] == v;
  }

  lemma {:induction false} ReadInner(s: string, rest: string, room: nat)
    requires Inner(s)
    ensures ReadValue(s + rest, room) == if room <= |s| then s[..room] else s + ReadValue(rest, room - |s|)
  {
    if s == "" {
      assert s + rest == rest;
    } else if room > 0 {
      assert (s + rest)[1..] == s[1..] + rest;
      ReadInner(s[1..], rest, room - 1);
      assert s == [s[0]] + s[1..];
    }
  }

  /** A pattern is not found in a text that lacks one of its characters. */
  lemma {:induction false} NotFound(t: string, pattern: string, c: char)
    requires c in pattern && c !in t
    ensures Find(t, pattern) == None
  {
    assert forall i :: 0 <= i < |pattern| && pattern <= t ==> pattern[i] == t[i];
    if t != [] { NotFound(t[1..], pattern, c); }
  }

  /** A text that lacks a character of the key has no value for it. */
  lemma NoValue(json: string, key: string, outSize: nat, c: char)
    requires 0 < outSize && c in key && c !in json
    ensures ExtractString(json, key, outSize) == None
  {
    NotFound(json, "\"" + key + "\"", c);
  }

  /** `json_extract_string`. */
  method JsonExtractString(json: string, key: string, outSize: nat) returns (ok: bool, out: string)
    requires 0 < outSize
    ensures ok <==> ExtractString(json, key, outSize).Some?
    ensures ok ==> out == ExtractString(json, key, outSize).value && |out| < outSize
  {
    var v := ValueText(json, key);
    if v.None? || At(v.value, 0) != '"' {
      return false, [];
    }
    out := CopyValue(v.value[1..], outSize - 1);
    ok := true;
  }

  /** One turn of the copying loop: `step` is 2 behind a backslash, else 1. */
  lemma CopyStep(t: string, pos: nat, room: nat, out: string)
    requires pos < |t| && 0 < room && t[pos] != NUL && t[pos] != '"'
    ensures var at := if t[pos] == '\\' && At(t, pos + 1) != NUL then pos + 1 else pos;
            out + ReadValue(t[pos..], room) == (out + [t[at]]) + ReadValue(t[at + 1..], room - 1)
  {
    var at := if t[pos] == '\\' && At(t, pos + 1) != NUL then pos + 1 else pos;
    Assoc(out, [t[at]], ReadValue(t[at + 1..], room - 1));
  }

  /** The copying loop, with `room` bytes before the terminator. */
  method CopyValue(t: string, room: nat) returns (out: string)
    ensures out == ReadValue(t, room) && |out| <= room
  {
    var pos := 0;
    out := [];
    assert t[0..] == t;
    ghost var goal := ReadValue(t, room);
    while At(t, pos) != NUL && At(t, pos) != '"' && |out| < room
      invariant 0 <= pos <= |t| && |out| <= room
      invariant goal == out + ReadValue(t[pos..], room - |out|)
      decreases |t| - pos
    {
      CopyStep(t, pos, room - |out|, out);
      if t[pos] == '\\' && At(t, pos + 1) != NUL {
        pos := pos + 1;
      }
      out := out + [t[pos]];
      pos := pos + 1;
    }
  }

  // ---------------------------------------------------------------------------------------------
  // Extracting from a flat object of strings
  // ---------------------------------------------------------------------------------------------

  function Quoted(s: string, rest: string): string { "\"" + (s + ("\"" + rest)) }

  function PairText(name: string, value: string, rest: string): string { Quoted(name, ":" + Quoted(value, rest)) }

  function PairsBehind(ms: seq<(string, string)>): string {
    if ms == [] then "}" else "," + PairText(ms[0].0, ms[0].1, PairsBehind(ms[1..]))
  }

  /** An object whose values are strings. */
  function FlatObject(ms: seq<(string, string)>): string
    requires ms != []
  {
    "{" + PairText(ms[0].0, ms[0].1, PairsBehind(ms[1..]))
  }

  /** The text behind the first place where the pattern begins. */
  function Behind(t: string, pattern: string): Option<string> {
    match Find(t, pattern)
    case None => None
    case Some(p) => Some(t[p + |pattern|..])
  }

  function Key(key: string): string { "\"" + key + "\"" }

  lemma BehindLater(c: char, rest: string, pattern: string)
    requires !(pattern <= [c] + rest)
    ensures Behind([c] + rest, pattern) == Behind(rest, pattern)
  {
    var t := [c] + rest;
    assert t[1..] == rest;
    if p :| Find(rest, pattern) == Some(p) { assert t[p + 1 + |pattern|..] == rest[p + |pattern|..]; }
  }

  lemma {:induction false} BehindText(s: string, rest: string, key: string)
    requires Inner(s)
    ensures Behind(s + rest, Key(key)) == Behind(rest, Key(key))
  {
    if s == "" {
      assert s + rest == rest;
    } else {
      assert s + rest == [s[0]] + (s[1..] + rest);
      assert Key(key)[0] == '"';
      BehindLater(s[0], s[1..] + rest, Key(key));
      BehindText(s[1..], rest, key);
    }
  }

  lemma OtherKey(s: string, rest: string, key: string)
    requires Inner(s) && Inner(key) && Key(key) <= Quoted(s, rest)
    ensures s == key
  {
    var p, t := Key(key), Quoted(s, rest);
    assert forall i :: 0 <= i < |s| ==> t[i + 1] == s[i];
    assert forall i :: 0 <= i < |key| ==> p[i + 1] == key[i];
    assert t[|s| + 1] == '"' && p[|key| + 1] == '"';
    assert forall i :: 0 <= i < |p| ==> p[i] == t[i];
    assert forall i :: 0 <= i < |key| && |s| == |key| ==> key[i] == p[i + 1] && s[i] == t[i + 1];
  }

  lemma BehindQuoted(s: string, rest: string, key: string)
    requires Inner(s) && Inner(key) && s != key && key != "" && rest != "" && rest[0] != key[0]
    ensures Behind(Quoted(s, rest), Key(key)) == Behind(rest, Key(key))
  {
    if Key(key) <= Quoted(s, rest) { OtherKey(s, rest, key); }
    BehindLater('"', s + ("\"" + rest), Key(key));
    BehindText(s, "\"" + rest, key);
    assert Key(key)[1] == key[0] && ("\"" + rest)[1] == rest[0];
    BehindLater('"', rest, Key(key));
  }

  /** Names and values that need no escapes; before place `i` none of them is the name at that place. */
  ghost predicate Finds(ms: seq<(string, string)>, i: nat) {
    && i < |ms| && ms[i].0 != "" && ms[i].0[0] != ':' && ms[i].0[0] != ',' && ms[i].0[0] != '}'
    && (forall j :: 0 <= j < |ms| ==> Inner(ms[j].0) && Inner(ms[j].1))
    && forall j :: 0 <= j < i ==> ms[j].0 != ms[i].0 && ms[j].1 != ms[i].0
  }

  lemma PairPassed(name: string, value: string, ms: seq<(string, string)>, key: string)
    requires Inner(name) && Inner(value) && Inner(key) && name != key && value != key
    requires key != "" && key[0] != ':' && key[0] != ',' && key[0] != '}'
    ensures Behind(PairText(name, value, PairsBehind(ms)), Key(key)) == Behind(PairsBehind(ms), Key(key))
  {
    var more := PairsBehind(ms);
    BehindQuoted(name, ":" + Quoted(value, more), key);
    BehindMark(':', Quoted(value, more), key);
    BehindQuoted(value, more, key);
  }

  lemma KeyHere(key: string, rest: string)
    ensures Behind(Quoted(key, rest), Key(key)) == Some(rest)
  {
    assert Quoted(key, rest) == Key(key) + rest;
    assert Find(Key(key) + rest, Key(key)) == Some(0);
  }

  lemma BehindMark(c: char, rest: string, key: string)
    requires c != '"'
    ensures Behind([c] + rest, Key(key)) == Behind(rest, Key(key))
  {
    assert Key(key)[0] == '"';
    BehindLater(c, rest, Key(key));
  }

  lemma PairsPassed(name: string, value: string, ms: seq<(string, string)>, key: string)
    requires Inner(name) && Inner(value) && Inner(key) && name != key && value != key && ms != []
    requires key != "" && key[0] != ':' && key[0] != ',' && key[0] != '}'
    ensures Behind(PairText(name, value, PairsBehind(ms)), Key(key))
         == Behind(PairText(ms[0].0, ms[0].1, PairsBehind(ms[1..])), Key(key))
  {
    PairPassed(name, value, ms, key);
    BehindMark(',', PairText(ms[0].0, ms[0].1, PairsBehind(ms[1..])), key);
  }

  lemma FirstFound(key: string, value: string, more: string)
    ensures Behind(PairText(key, value, more), Key(key)) == Some(":" + Quoted(value, more))
  {
    KeyHere(key, ":" + Quoted(value, more));
  }

  /** Behind the key at place `i` stands its value. */
  lemma {:induction false} PairFound(ms: seq<(string, string)>, i: nat)
    requires Finds(ms, i)
    ensures Behind(PairText(ms[0].0, ms[0].1, PairsBehind(ms[1..])), Key(ms[i].0))
         == Some(":" + Quoted(ms[i].1, PairsBehind(ms[i + 1..])))
    decreases i
  {
    var key := ms[i].0;
    if i == 0 {
      FirstFound(key, ms[0].1, PairsBehind(ms[1..]));
    } else {
      var rest := ms[1..];
      PairsPassed(ms[0].0, ms[0].1, rest, key);
      PairFound(rest, i - 1);
      assert rest[i..] == ms[i + 1..];
    }
  }

  lemma ValueBehind(json: string, key: string, v: string)
    requires Behind(json, Key(key)) == Some(":" + v) && v != "" && !IsBlank(v[0])
    ensures ValueText(json, key) == Some(v)
  {
    assert "" + (":" + ("" + v)) == ":" + v;
    ValueLaidOut(json, key, "", "", v);
  }

  /** The value stands behind the first colon after the key and any blanks after that. */
  lemma ValueLaidOut(json: string, key: string, pre: string, blanks: string, v: string)
    requires Behind(json, Key(key)) == Some(pre + (":" + (blanks + v)))
    requires (forall i :: 0 <= i < |pre| ==> pre[i] != ':') && v != "" && !IsBlank(v[0])
    requires forall i :: 0 <= i < |blanks| ==>
               blanks[i] == ' ' || blanks[i] == '\t' || blanks[i] == '\n' || blanks[i] == '\r'
    ensures ValueText(json, key) == Some(v)
  {
    ColonPassed(pre, blanks, v);
    ValueTextIs(json, key, pre + (":" + (blanks + v)));
  }

  lemma ValueTextIs(json: string, key: string, after: string)
    requires Behind(json, Key(key)) == Some(after)
    ensures ValueText(json, key) == BehindColon(after)
  {
  }

  lemma ColonPassed(pre: string, blanks: string, v: string)
    requires forall i :: 0 <= i < |pre| ==> pre[i] != ':'
    requires (forall i :: 0 <= i < |blanks| ==> IsBlank(blanks[i])) && v != "" && !IsBlank(v[0])
    ensures BehindColon(pre + (":" + (blanks + v))) == Some(v)
  {
    var t := pre + (":" + (blanks + v));
    ColonFound(pre, blanks + v);
    assert t[|pre| + 1..] == blanks + v;
    BlanksSkipped(blanks, v);
    assert (blanks + v)[|blanks|..] == v;
  }

  lemma {:induction false} ColonFound(pre: string, rest: string)
    requires forall i :: 0 <= i < |pre| ==> pre[i] != ':'
    ensures Find(pre + (":" + rest), ":") == Some(|pre|)
  {
    var t := pre + (":" + rest);
    if pre == "" {
      assert t == ":" + rest;
    } else {
      assert t[1..] == pre[1..] + (":" + rest);
      assert t[0] == pre[0] && ":"[0] == ':' && !(":" <= t);
      ColonFound(pre[1..], rest);
    }
  }

  lemma {:induction false} BlanksSkipped(blanks: string, v: string)
    requires (forall i :: 0 <= i < |blanks| ==> IsBlank(blanks[i])) && v != "" && !IsBlank(v[0])
    ensures SkipBlanks(blanks + v) == |blanks|
  {
    if blanks == "" {
      assert blanks + v == v;
    } else {
      assert (blanks + v)[1..] == blanks[1..] + v;
      BlanksSkipped(blanks[1..], v);
    }
  }

  /** A value that is no string is not extracted. */
  lemma NoStringNoValue(json: string, key: string, v: string, outSize: nat)
    requires ValueText(json, key) == Some(v) && v != "" && v[0] != '"' && 0 < outSize
    ensures ExtractString(json, key, outSize) == None
  {
    ExtractsValue(json, key, v, outSize);
  }

  lemma ValueFound(ms: seq<(string, string)>, i: nat)
    requires Finds(ms, i)
    ensures ValueText(FlatObject(ms), ms[i].0) == Some(Quoted(ms[i].1, PairsBehind(ms[i + 1..])))
  {
    PairFound(ms, i);
    BehindMark('{', PairText(ms[0].0, ms[0].1, PairsBehind(ms[1..])), ms[i].0);
    ValueBehind(FlatObject(ms), ms[i].0, Quoted(ms[i].1, PairsBehind(ms[i + 1..])));
  }

  lemma ExtractsValue(json: string, key: string, v: string, outSize: nat)
    requires ValueText(json, key) == Some(v) && 0 < outSize
    ensures ExtractString(json, key, outSize) == StringValue(Some(v), outSize)
  {
  }

  /** A value of a flat object is extracted whole, if the buffer has room for it. */
  lemma ExtractsPair(ms: seq<(string, string)>, i: nat, outSize: nat)
    requires Finds(ms, i) && |ms[i].1| < outSize
    ensures ExtractString(FlatObject(ms), ms[i].0, outSize) == Some(ms[i].1)
  {
    ValueFound(ms, i);
    ExtractsValue(FlatObject(ms), ms[i].0, Quoted(ms[i].1, PairsBehind(ms[i + 1..])), outSize);
    QuotedIsRead(ms[i].1, PairsBehind(ms[i + 1..]), outSize);
  }

  lemma QuotedIsRead(s: string, rest: string, outSize: nat)
    requires Inner(s) && |s| < outSize
    ensures StringValue(Some(Quoted(s, rest)), outSize) == Some(s)
  {
    var t := s + ("\"" + rest);
    assert ("\"" + t)[1..] == t;
    ReadInner(s, "\"" + rest, outSize - 1);
    assert s + "" == s;
  }
}
