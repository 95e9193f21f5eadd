/**
 JSON string escaping (includes/common/strutil.h, src/agent/shared/jsonutil.cpp, src/agent/shared/auth.cpp)
 against the string grammar of RFC 8259, section 7.

 A byte is a `char`; the statements hold for every `char`, so in particular for every byte string.
 A C string is a `string` that ends at its first NUL or, without one, at its end.

 `Escape` is what both escapers write and `Unescape` the grammar read backwards; `Kept` tells how much of the
 input the one with a buffer takes.
 */
module JsonText {

  datatype Option<+T> = None | Some(value: T)

  const NUL: char := 0 as char

  lemma Assoc3(a: string, b: string, c: string, d: string)
    ensures (a + (b + c)) + d == a + (b + (c + d))
  {
  }

  lemma Assoc(a: string, b: string, c: string)
    ensures (a + b) + c == a + (b + c)
  {
  }

  predicate IsControl(c: char) { c as int < 0x20 }

  function HexDigit(n: nat): char
    requires n < 16
  {
    "0123456789abcdef"[n]
  }

  function EscapeChar(c: char): (e: string)
    ensures 1 <= |e| <= 6
  {
    if c == '"' then "\\\""
    else if c == '\\' then "\\\\"
    else if c == '\n' then "\\n"
    else if c == '\r' then "\\r"
    else if c == '\t' then "\\t"
    else if IsControl(c) then "\\u00" + [HexDigit(c as int / 16), HexDigit(c as int % 16)]
    else [c]
  }

  function Escape(s: string): string {
    if s == [] then [] else EscapeChar(s[0]) + Escape(s[1..])
  }

  // ---------------------------------------------------------------------------------------------
  // The string grammar of RFC 8259, section 7
  // ---------------------------------------------------------------------------------------------

  function HexValue(c: char): Option<nat> {
    if '0' <= c <= '9' then Some(c as int - '0' as int)
    else if 'a' <= c <= 'f' then Some(c as int - 'a' as int + 10)
    else if 'A' <= c <= 'F' then Some(c as int - 'A' as int + 10)
    else None
  }

  /** The value of four hex digits, when it is a character by itself (not half of a surrogate pair). */
  function HexQuad(t: string): Option<char>
    requires |t| == 4
  {
    match (HexValue(t[0]), HexValue(t[1]), HexValue(t[2]), HexValue(t[3]))
    case (Some(a), Some(b), Some(c), Some(d)) =>
      var v := ((a * 16 + b) * 16 + c) * 16 + d;
      if v < 0xD800 || 0xE000 <= v < 0x10000 then Some(v as char) else None
    case _ => None
  }

  /** The character a two-character escape stands for. */
  function ShortEscape(c: char): Option<char> {
    if c == '"' || c == '\\' || c == '/' then Some(c)
    else if c == 'b' then Some(8 as char)
    else if c == 'f' then Some(12 as char)
    else if c == 'n' then Some('\n')
    else if c == 'r' then Some('\r')
    else if c == 't' then Some('\t')
    else None
  }

  /** What stands between the quotes, decoded; None for a raw quote, a raw control or a bad escape. */
  function Unescape(t: string): Option<string>
    decreases |t|
  {
    if t == [] then Some([])
    else if t[0] == '\\' then
      if |t| >= 6 && t[1] == 'u' then Prepend(HexQuad(t[2..6]), Unescape(t[6..]))
      else if |t| >= 2 then Prepend(ShortEscape(t[1]), Unescape(t[2..]))
      else None
    else if t[0] == '"' || IsControl(t[0]) then None
    else Prepend(Some(t[0]), Unescape(t[1..]))
  }

  function Prepend(c: Option<char>, s: Option<string>): Option<string> {
    if c.Some? && s.Some? then Some([c.value] + s.value) else None
  }

  lemma UnescapeChar(c: char, rest: string)
    ensures Unescape(EscapeChar(c) + rest) == Prepend(Some(c), Unescape(rest))
  {
    var t := EscapeChar(c) + rest;
    if c != '"' && c != '\\' && c != '\n' && c != '\r' && c != '\t' && IsControl(c) {
      assert t[2..6] == ['0', '0', HexDigit(c as int / 16), HexDigit(c as int % 16)];
      assert t[6..] == rest;
      assert HexValue(HexDigit(c as int / 16)) == Some(c as int / 16);
      assert HexValue(HexDigit(c as int % 16)) == Some(c as int % 16);
    } else if |EscapeChar(c)| == 2 {
      assert t[2..] == rest;
    } else {
      assert t[1..] == rest;
    }
  }

  /** Decoding by the standard gives back every byte string, so the output is a legal JSON string. */
  lemma {:induction false} EscapeRoundTrip(s: string)
    ensures Unescape(Escape(s)) == Some(s)
  {
    if s != [] {
      UnescapeChar(s[0], Escape(s[1..]));
      EscapeRoundTrip(s[1..]);
      assert [s[0]] + s[1..] == s;
    }
  }

  /** No raw control byte, and at most six bytes for one.  (A raw quote would make `Unescape` refuse.) */
  lemma {:induction false} EscapeIsClean(s: string)
    ensures forall c :: c in Escape(s) ==> !IsControl(c)
    ensures |s| <= |Escape(s)| <= 6 * |s|
  {
    if s != [] {
      EscapeIsClean(s[1..]);
      CharIsClean(s[0]);
    }
  }

  lemma CharIsClean(c: char)
    ensures forall d :: d in EscapeChar(c) ==> !IsControl(d)
  {
    assert forall n: nat {:trigger HexDigit(n)} :: n < 16 ==> !IsControl(HexDigit(n));
  }

  /** Two bytes for what has a short form here, six for the other control bytes, the byte itself for the rest. */
  lemma EscapeForms(c: char)
    ensures c == '"' ==> EscapeChar(c) == ['\\', '"']
    ensures c == '\\' ==> EscapeChar(c) == ['\\', '\\']
    ensures c == '\n' ==> EscapeChar(c) == ['\\', 'n']
    ensures c == '\r' ==> EscapeChar(c) == ['\\', 'r']
    ensures c == '\t' ==> EscapeChar(c) == ['\\', 't']
    ensures |EscapeChar(c)| == (if c == '"' || c == '\\' || c == '\n' || c == '\r' || c == '\t' then 2
                                else if c as int < 32 then 6 else 1)
    ensures |EscapeChar(c)| == 6 ==> "\\u00" <= EscapeChar(c) && forall d :: d in EscapeChar(c) ==> !('A' <= d <= 'F')
    ensures |EscapeChar(c)| == 1 ==> EscapeChar(c) == [c]
  {
    assert forall n: nat {:trigger HexDigit(n)} :: n < 16 ==> !('A' <= HexDigit(n) <= 'F');
  }

  lemma {:induction false} EscapeAppend(a: string, b: string)
    ensures Escape(a + b) == Escape(a) + Escape(b)
  {
    if a == [] {
      assert a + b == b;
    } else {
      calc {
        Escape(a + b);
        { assert (a + b)[0] == a[0] && (a + b)[1..] == a[1..] + b; }
        EscapeChar(a[0]) + Escape(a[1..] + b);
        { EscapeAppend(a[1..], b); }
        EscapeChar(a[0]) + (Escape(a[1..]) + Escape(b));
        (EscapeChar(a[0]) + Escape(a[1..])) + Escape(b);
      }
    }
  }

  lemma EscapeStep(s: string, i: nat)
    requires i < |s|
    ensures Escape(s[..i + 1]) == Escape(s[..i]) + EscapeChar(s[i])
  {
    EscapeAppend(s[..i], [s[i]]);
    assert s[..i + 1] == s[..i] + [s[i]];
    assert Escape([s[i]]) == EscapeChar(s[i]) + Escape([]);
  }

  /** `jit::jsonEscape`: the unbounded escaper. */
  method JsonEscape(s: string) returns (out: string)
    ensures out == Escape(s)
    ensures Unescape(out) == Some(s)
  {
    out := [];
    for i := 0 to |s|
      invariant out == Escape(s[..i])
    {
      EscapeStep(s, i);
      var c := s[i];
      if c == '"' { out := out + "\\\""; }
      else if c == '\\' { out := out + "\\\\"; }
      else if c == '\n' { out := out + "\\n"; }
      else if c == '\r' { out := out + "\\r"; }
      else if c == '\t' { out := out + "\\t"; }
      else if c as int < 0x20 { out := out + "\\u00" + [HexDigit(c as int / 16), HexDigit(c as int % 16)]; }
      else { out := out + [c]; }
    }
    assert s[..|s|] == s;
    EscapeRoundTrip(s);
  }

  // ---------------------------------------------------------------------------------------------
  // The bounded escaper
  // ---------------------------------------------------------------------------------------------

  /** What C sees of a string: everything before the first NUL. */
  function CString(s: string): (r: string)
    ensures r <= s && NUL !in r
    ensures NUL !in s ==> r == s
  {
    if s == [] || s[0] == NUL then [] else [s[0]] + CString(s[1..])
  }

  /** How many input bytes a buffer of `size` takes: one more while at least 8 bytes are free. */
  function Kept(s: string, size: nat, i: nat): (k: nat)
    requires i <= |s|
    ensures i <= k <= |s|
    decreases |s| - i
  {
    if i == |s| || |Escape(s[..i])| + 7 >= size then i else Kept(s, size, i + 1)
  }

  /** The kept prefix always fits with its terminator, and stops only when an escape might not fit. */
  lemma {:induction false} KeptFits(s: string, size: nat, i: nat)
    requires i <= |s| && |Escape(s[..i])| < size
    ensures var k := Kept(s, size, i);
            && |Escape(s[..k])| < size
            && (k < |s| ==> size <= |Escape(s[..k])| + 7)
    decreases |s| - i
  {
    if i < |s| && |Escape(s[..i])| + 7 < size {
      EscapeStep(s, i);
      KeptFits(s, size, i + 1);
    }
  }

  /** A buffer of 6n + 2 bytes takes all n input bytes, and no smaller bound does for every input. */
  lemma {:induction false} KeptWhole(s: string, size: nat, i: nat)
    requires i <= |s| && 6 * |s| + 2 <= size
    ensures Kept(s, size, i) == |s|
    decreases |s| - i
  {
    if i < |s| {
      EscapeIsClean(s[..i]);
      KeptWhole(s, size, i + 1);
    }
  }

  /** The bound is sharp: with 6n + 1 bytes, n copies of a control byte lose the last one. */
  lemma KeptWholeIsSharp(n: nat)
    requires 0 < n
    ensures var s := seq(n, i => 1 as char);
            Kept(s, 6 * n + 1, 0) < n
  {
    var s: string := seq(n, i => 1 as char);
    ControlsEscape(s[..n - 1]);
    KeptStopsBy(s, 6 * n + 1, 0, n - 1);
  }

  lemma {:induction false} ControlsEscape(s: string)
    requires forall i :: 0 <= i < |s| ==> s[i] == 1 as char
    ensures |Escape(s)| == 6 * |s|
  {
    if s != [] { ControlsEscape(s[1..]); }
  }

  lemma {:induction false} KeptStopsBy(s: string, size: nat, i: nat, k: nat)
    requires i <= k < |s| && |Escape(s[..k])| + 7 >= size
    ensures Kept(s, size, i) <= k
    decreases k - i
  {
    if i < k { KeptStopsBy(s, size, i + 1, k); }
  }

  /** What `json_escape` has written of `s` into a buffer of `size` before its turn `i`. */
  ghost predicate Escaping(s: string, size: nat, i: nat, written: string) {
    i <= |s| && written == Escape(s[..i]) && |written| < size && Kept(s, size, 0) == Kept(s, size, i)
  }

  lemma EscapingGoesOn(s: string, size: nat, i: nat, written: string)
    requires Escaping(s, size, i, written) && i < |s| && |written| + 7 < size
    ensures Escaping(s, size, i + 1, written + EscapeChar(s[i]))
  {
    EscapeStep(s, i);
    KeptFits(s, size, i);
    CharIsClean(s[i]);
  }

  lemma EscapingEnds(s: string, size: nat, i: nat, written: string)
    requires Escaping(s, size, i, written) && (i == |s| || |written| + 7 >= size)
    ensures written == Escape(s[..Kept(s, size, 0)])
    ensures size >= 6 * |s| + 2 ==> written == Escape(s)
  {
    if size >= 6 * |s| + 2 {
      KeptWhole(s, size, 0);
      assert s[..|s|] == s;
    }
  }

  /** From `n` on the two agree. */
  ghost predicate SameFrom(n: nat, s: string, t: string) {
    |s| == |t| && forall i :: n <= i < |s| ==> s[i] == t[i]
  }

  /**
   `json_escape`: the buffer ends up holding the escape of a whole prefix of the input, with its
   terminator inside the buffer, and is otherwise as it was.
   */
  method BoundedEscape(input: Option<string>, output: array<char>)
    modifies output
    ensures output.Length > 0 ==>
      var s := if input.Some? then CString(input.value) else [];
      var e := Escape(s[..Kept(s, output.Length, 0)]);
      && |e| < output.Length
      && output[..|e| + 1] == e + [NUL]
      && SameFrom(|e| + 1, output[..], old(output[..]))
      && (output.Length >= 6 * |s| + 2 ==> e == Escape(s))
  {
    if output.Length == 0 { return; }
    if input.None? {
      output[0] := NUL;
      return;
    }
    var j := EscapeInto(input.value, output);
    output[j] := NUL;
    assert output[..j + 1] == output[..j] + [NUL];
  }

  /** The loop; `end` is where the terminator goes. */
  method EscapeInto(s: string, output: array<char>) returns (end: nat)
    requires output.Length > 0
    modifies output
    ensures var cs := CString(s);
            && end < output.Length && output[..end] == Escape(cs[..Kept(cs, output.Length, 0)])
            && (output.Length >= 6 * |cs| + 2 ==> output[..end] == Escape(cs))
            && SameFrom(end, output[..], old(output[..]))
  {
    ghost var cs := CString(s);
    var j := 0;
    var i := 0;
    while i < |s| && s[i] != NUL
      invariant 0 <= i <= |cs| && cs == CString(s)
      invariant 0 <= j < output.Length && Escaping(cs, output.Length, i, output[..j])
      invariant SameFrom(j, output[..], old(output[..]))
    {
      CStringStops(s, i);
      if j + 7 >= output.Length { break; }
      EscapingGoesOn(cs, output.Length, i, output[..j]);
      j := PutEscaped(output, j, s[i]);
      i := i + 1;
    }
    if i == |s| || s[i] == NUL { CStringStops(s, i); }
    EscapingEnds(cs, output.Length, i, output[..j]);
    end := j;
  }

  lemma {:induction false} CStringStops(s: string, i: nat)
    requires i <= |CString(s)|
    ensures i < |s| && s[i] != NUL ==> i < |CString(s)|
    ensures i == |s| || s[i] == NUL ==> i == |CString(s)|
  {
    if i > 0 { CStringStops(s[1..], i - 1); }
  }

  /** Write one escaped byte at `j`; at least eight bytes are free there. */
  method PutEscaped(output: array<char>, j: nat, c: char) returns (next: nat)
    requires j + 7 < output.Length
    modifies output
    ensures next == j + |EscapeChar(c)|
    ensures output[..next] == old(output[..j]) + EscapeChar(c)
    ensures SameFrom(next, output[..], old(output[..]))
  {
    var e := EscapeChar(c);
    for k := 0 to |e|
      invariant output[..j + k] == old(output[..j]) + e[..k]
      invariant SameFrom(j + k, output[..], old(output[..]))
    {
      output[j + k] := e[k];
    }
    next := j + |e|;
  }

  /** auth.cpp's wrapper: a buffer of 6n + 16 bytes, cut at its terminator, is the unbounded form. */
  method SizedEscape(s: string) returns (out: string)
    ensures out == Escape(CString(s))
    ensures NUL !in s ==> out == Escape(s) && Unescape(out) == Some(s)
  {
    var buffer := new char[6 * |s| + 16](i => NUL);
    BoundedEscape(Some(s), buffer);
    ghost var e := Escape(CString(s));
    EscapeHasNoNul(CString(s));
    EscapeRoundTrip(s);
    var n := StrLen(buffer, e);
    out := buffer[..n];
    assert out == buffer[..|e| + 1][..|e|];
  }

  lemma EscapeHasNoNul(s: string)
    ensures NUL !in Escape(s)
  {
    EscapeIsClean(s);
    assert IsControl(NUL);
  }

  /** `strlen` of a buffer that holds `e` and its terminator. */
  method StrLen(buffer: array<char>, ghost e: string) returns (n: nat)
    requires |e| < buffer.Length && buffer[..|e| + 1] == e + [NUL] && NUL !in e
    ensures n == |e|
  {
    n := 0;
    ghost var t := buffer[..|e| + 1];
    assert buffer[|e|] == t[|e|] == NUL;
    forall i | 0 <= i < |e| ensures buffer[i] != NUL { assert buffer[i] == t[i] == e[i] && e[i] in e; }
    while buffer[n] != NUL
      invariant 0 <= n <= |e|
      decreases |e| - n
    {
      n := n + 1;
    }
  }
}
