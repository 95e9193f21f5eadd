/**
 The request body of src/agent/shared/network.cpp and what src/agent/shared/jsonutil.cpp reads out of it.

 `ObjectText` is one record, `BodyText` a list of them.  The walker finds the end of an object by counting
 braces outside strings, so its promise rests on what the writer puts into strings: `ScanFrom...` follow
 it from the opening brace to the closing one, field by field, whatever bytes the texts hold.

 The extractor copies a string value and drops the backslash of each escape.  `ReadBack` is what it makes
 of an escaped text; the device id comes back if and only if it has no control byte.

 Process names and titles are the UTF-8 bytes that `wideToUtf8` delivers.
 */
module RecordJson {
  import opened Decimal
  import opened JsonText
  import opened JsonScan

  datatype SyncRecord = SyncRecord(id: int, deviceId: string, process: string, title: string,
                                   duration: int, start: int, end: int)

  const DEVICE_KEY := "{\"device_id\":\""
  const PROCESS_KEY := "\",\"process_name\":\""
  const TITLE_KEY := "\",\"window_title\":\""
  const DURATION_KEY := "\",\"duration_seconds\":"
  const START_KEY := ",\"start_time\":"
  const END_KEY := ",\"end_time\":"

  // The text of a record from some member on, followed by `rest`.

  function FromEnd(r: SyncRecord, rest: string): string {
    END_KEY + (Print(r.end) + ("}" + rest))
  }

  function FromStart(r: SyncRecord, rest: string): string {
    START_KEY + (Print(r.start) + FromEnd(r, rest))
  }

  function FromDuration(r: SyncRecord, rest: string): string {
    DURATION_KEY + (Print(r.duration) + FromStart(r, rest))
  }

  function FromTitle(r: SyncRecord, rest: string): string {
    TITLE_KEY + (Escape(r.title) + FromDuration(r, rest))
  }

  function FromProcess(r: SyncRecord, rest: string): string {
    PROCESS_KEY + (Escape(r.process) + FromTitle(r, rest))
  }

  function FromDevice(r: SyncRecord, rest: string): string {
    DEVICE_KEY + (Escape(r.deviceId) + FromProcess(r, rest))
  }

  /** The object sent for a record; the local id stays at home. */
  function ObjectText(r: SyncRecord): string {
    FromDevice(r, "")
  }

  function Texts(rs: seq<SyncRecord>): (ts: seq<string>)
    ensures |ts| == |rs| && forall i :: 0 <= i < |rs| ==> ts[i] == ObjectText(rs[i])
  {
    seq(|rs|, i requires 0 <= i < |rs| => ObjectText(rs[i]))
  }

  function BodyText(rs: seq<SyncRecord>): string {
    if |rs| == 1 then ObjectText(rs[0]) else "[" + (Join(Texts(rs)) + "]")
  }

  lemma ObjectThen(r: SyncRecord, rest: string)
    ensures ObjectText(r) + rest == FromDevice(r, rest)
  {
    Assoc3(END_KEY, Print(r.end), "}" + "", rest);
    assert ("}" + "") + rest == "}" + rest;
    Assoc3(START_KEY, Print(r.start), FromEnd(r, ""), rest);
    Assoc3(DURATION_KEY, Print(r.duration), FromStart(r, ""), rest);
    Assoc3(TITLE_KEY, Escape(r.title), FromDuration(r, ""), rest);
    Assoc3(PROCESS_KEY, Escape(r.process), FromTitle(r, ""), rest);
    Assoc3(DEVICE_KEY, Escape(r.deviceId), FromProcess(r, ""), rest);
  }

  lemma Shift(out: string, key: string, value: string, rest: string)
    ensures out + (key + (value + rest)) == ((out + key) + value) + rest
  {
  }

  /** `appendRecordJson`. */
  method AppendRecordJson(body: string, r: SyncRecord) returns (out: string)
    ensures out == body + ObjectText(r)
  {
    out := body;
    var device := JsonEscape(r.deviceId);
    Shift(out, DEVICE_KEY, device, FromProcess(r, ""));
    out := out + "{\"device_id\":\"" + device;
    var process := JsonEscape(r.process);
    Shift(out, PROCESS_KEY, process, FromTitle(r, ""));
    out := out + "\",\"process_name\":\"" + process;
    var title := JsonEscape(r.title);
    Shift(out, TITLE_KEY, title, FromDuration(r, ""));
    out := out + "\",\"window_title\":\"" + title;
    Shift(out, DURATION_KEY, Print(r.duration), FromStart(r, ""));
    out := out + "\",\"duration_seconds\":" + Print(r.duration);
    Shift(out, START_KEY, Print(r.start), FromEnd(r, ""));
    out := out + ",\"start_time\":" + Print(r.start);
    Shift(out, END_KEY, Print(r.end), "}" + "");
    out := out + ",\"end_time\":" + Print(r.end);
    out := out + "}";
  }

  /** `buildBody`: one record as a bare object, more as an array. */
  method BuildBody(records: seq<SyncRecord>) returns (body: string)
    ensures body == BodyText(records)
  {
    if |records| == 1 {
      body := AppendRecordJson("", records[0]);
    } else {
      body := BuildArray(records, Texts(records));
    }
  }

  method BuildArray(records: seq<SyncRecord>, ghost objs: seq<string>) returns (body: string)
    requires |objs| == |records| && forall i :: 0 <= i < |records| ==> objs[i] == ObjectText(records[i])
    ensures body == "[" + (Join(objs) + "]")
  {
    body := "[";
    for i := 0 to |records|
      invariant body == "[" + Join(objs[..i])
    {
      body := AppendElement(body, i, objs[..i], records[i], objs[i]);
      OneMore(objs, i);
    }
    assert objs[..|records|] == objs;
    Assoc("[", Join(objs), "]");
    body := body + "]";
  }

  lemma OneMore(objs: seq<string>, i: nat)
    requires i < |objs|
    ensures objs[..i + 1] == objs[..i] + [objs[i]]
  {
  }

  /** One turn of the array loop: a comma unless it is the first element, then the object. */
  method AppendElement(body: string, i: nat, ghost objs: seq<string>, r: SyncRecord, ghost text: string)
    returns (out: string)
    requires i == |objs| && body == "[" + Join(objs) && text == ObjectText(r)
    ensures out == "[" + Join(objs + [text])
  {
    out := PutComma(body, i, objs, text);
    out := AppendRecordJson(out, r);
  }

  method PutComma(body: string, i: nat, ghost objs: seq<string>, ghost text: string) returns (out: string)
    requires i == |objs| && body == "[" + Join(objs)
    ensures out + text == "[" + Join(objs + [text])
  {
    JoinLast(objs, text);
    out := body;
    if i > 0 {
      Assoc(out, ",", text);
      Assoc("[", Join(objs), "," + text);
      out := out + ",";
    }
  }

  // ---------------------------------------------------------------------------------------------
  // Walking the body
  // ---------------------------------------------------------------------------------------------

  // A member key with its punctuation, taken apart for the walker.

  /** `<key>":"` with the text behind it, after the opening quote. */
  lemma OpenTextKey(key: string, t: string)
    ensures (key + "\":\"") + t == key + ("\"" + (":" + ("\"" + t)))
  {
    assert "\":\"" + t == "\"" + (":" + ("\"" + t));
    Assoc(key, "\":\"", t);
  }

  lemma OpenNumberKey(key: string, t: string)
    ensures (key + "\":") + t == key + ("\"" + (":" + t))
  {
    assert "\":" + t == "\"" + (":" + t);
    Assoc(key, "\":", t);
  }

  /** From the closing quote of one string to the opening quote of the next. */
  lemma ScanNextText(lit: string, key: string, t: string)
    requires Inner(key) && lit == "\",\"" + (key + "\":\"")
    ensures Scan(lit + t, 1, true) == |lit| + Scan(t, 1, true)
  {
    var u := key + ("\"" + (":" + ("\"" + t)));
    OpenTextKey(key, t);
    Assoc("\",\"", key + "\":\"", t);
    assert "\",\"" + u == "\"" + ("," + ("\"" + u));
    ScanQuote("," + ("\"" + u), 1, true);
    ScanPlainChar(',', "\"" + u, 1);
    ScanKey(key, "\"" + t, 1);
    ScanQuote(t, 1, false);
  }

  /** From a comma between members to the number of the next one. */
  lemma ScanNextNumber(lit: string, key: string, t: string)
    requires Inner(key) && lit == ",\"" + (key + "\":")
    ensures Scan(lit + t, 1, false) == |lit| + Scan(t, 1, false)
  {
    var u := key + ("\"" + (":" + t));
    OpenNumberKey(key, t);
    Assoc(",\"", key + "\":", t);
    assert ",\"" + u == "," + ("\"" + u);
    ScanPlainChar(',', "\"" + u, 1);
    ScanKey(key, t, 1);
  }

  // Each member is passed as a whole: string values keep the depth, whatever they contain.

  lemma ScanEndKey(t: string)
    ensures Scan(END_KEY + t, 1, false) == |END_KEY| + Scan(t, 1, false)
  {
    assert END_KEY == ",\"" + ("end_time" + "\":");
    ScanNextNumber(END_KEY, "end_time", t);
  }

  lemma ScanFromEnd(r: SyncRecord, rest: string)
    ensures Scan(FromEnd(r, rest), 1, false) == |FromEnd(r, "")|
  {
    ScanEndKey(Print(r.end) + ("}" + rest));
    ScanPlain(Print(r.end), "}" + rest, 1);
  }

  lemma ScanStartKey(t: string)
    ensures Scan(START_KEY + t, 1, false) == |START_KEY| + Scan(t, 1, false)
  {
    assert START_KEY == ",\"" + ("start_time" + "\":");
    ScanNextNumber(START_KEY, "start_time", t);
  }

  lemma ScanFromStart(r: SyncRecord, rest: string)
    ensures Scan(FromStart(r, rest), 1, false) == |FromStart(r, "")|
  {
    ScanStartKey(Print(r.start) + FromEnd(r, rest));
    ScanPlain(Print(r.start), FromEnd(r, rest), 1);
    ScanFromEnd(r, rest);
  }

  /** From the closing quote of the title to the number behind the next key. */
  lemma ScanDurationKey(t: string)
    ensures Scan(DURATION_KEY + t, 1, true) == |DURATION_KEY| + Scan(t, 1, false)
  {
    var lit := ",\"" + ("duration_seconds" + "\":");
    assert DURATION_KEY == "\"" + lit;
    Assoc("\"", lit, t);
    ScanQuote(lit + t, 1, true);
    ScanNextNumber(lit, "duration_seconds", t);
  }

  lemma ScanFromDuration(r: SyncRecord, rest: string)
    ensures Scan(FromDuration(r, rest), 1, true) == |FromDuration(r, "")|
  {
    ScanDurationKey(Print(r.duration) + FromStart(r, rest));
    ScanPlain(Print(r.duration), FromStart(r, rest), 1);
    ScanFromStart(r, rest);
  }

  lemma ScanFromTitle(r: SyncRecord, rest: string)
    ensures Scan(FromTitle(r, rest), 1, true) == |FromTitle(r, "")|
  {
    TitleKey();
    ScanNextText(TITLE_KEY, "window_title", Escape(r.title) + FromDuration(r, rest));
    ScanEscaped(r.title, FromDuration(r, rest), 1);
    ScanFromDuration(r, rest);
  }

  lemma TitleKey()
    ensures TITLE_KEY == "\",\"" + ("window_title" + "\":\"")
  {
  }

  lemma ProcessKey()
    ensures PROCESS_KEY == "\",\"" + ("process_name" + "\":\"")
  {
  }

  lemma ScanFromProcess(r: SyncRecord, rest: string)
    ensures Scan(FromProcess(r, rest), 1, true) == |FromProcess(r, "")|
  {
    ProcessKey();
    ScanNextText(PROCESS_KEY, "process_name", Escape(r.process) + FromTitle(r, rest));
    ScanEscaped(r.process, FromTitle(r, rest), 1);
    ScanFromTitle(r, rest);
  }

  lemma OpenObject(t: string)
    ensures DEVICE_KEY + t == "{" + ("\"" + ("device_id" + ("\"" + (":" + ("\"" + t)))))
  {
    var u := "device_id" + "\":\"";
    assert DEVICE_KEY == "{\"" + u;
    Assoc("{\"", u, t);
    OpenTextKey("device_id", t);
    assert "{\"" + (u + t) == "{" + ("\"" + (u + t));
  }

  /** The walker stops exactly behind the object, whatever bytes the record contains. */
  lemma ScanObject(r: SyncRecord, rest: string)
    ensures Scan(ObjectText(r) + rest, 0, false) == |ObjectText(r)|
  {
    var t := Escape(r.deviceId) + FromProcess(r, rest);
    var u := "\"" + ("device_id" + ("\"" + (":" + ("\"" + t))));
    ObjectThen(r, rest);
    OpenObject(t);
    assert ("{" + u)[1..] == u;
    ScanKey("device_id", "\"" + t, 1);
    ScanQuote(t, 1, false);
    ScanEscaped(r.deviceId, FromProcess(r, rest), 1);
    ScanFromProcess(r, rest);
  }

  /** The object is found at the front of whatever follows separators. */
  lemma NextIsObject(r: SyncRecord, rest: string)
    ensures NextElement(ObjectText(r) + rest) == Element(ObjectText(r), |ObjectText(r)|)
  {
    ScanObject(r, rest);
  }

  lemma IsRecognised(r: SyncRecord)
    ensures Recognised(ObjectText(r))
  {
    forall rest ensures NextElement(ObjectText(r) + rest) == Element(ObjectText(r), |ObjectText(r)|) {
      NextIsObject(r, rest);
    }
  }

  lemma CollectAlone(r: SyncRecord)
    ensures Collect(ObjectText(r)) == [ObjectText(r)]
  {
    NextIsObject(r, "");
    assert ObjectText(r) + "" == ObjectText(r);
  }

  /** Walking the body of a request gives back each object's text, in order, and then stops. */
  lemma CollectBody(rs: seq<SyncRecord>)
    ensures Collect(BodyText(rs)) == Texts(rs)
  {
    if |rs| == 1 {
      CollectAlone(rs[0]);
      assert Texts(rs) == [ObjectText(rs[0])];
    } else {
      var objs := Texts(rs);
      forall i | 0 <= i < |rs| ensures Recognised(objs[i]) { IsRecognised(rs[i]); }
      CollectJoined(objs);
      CollectPastSeparator('[', Join(objs) + "]");
      assert ['['] + (Join(objs) + "]") == "[" + (Join(objs) + "]");
    }
  }

  /** The two loops together: what `buildBody` writes, the walker takes apart again. */
  method WriteThenWalk(records: seq<SyncRecord>, objSize: nat) returns (objs: seq<string>)
    requires 0 < objSize
    requires forall i :: 0 <= i < |records| ==> |ObjectText(records[i])| < objSize
    ensures objs == Texts(records)
  {
    var body := BuildBody(records);
    CollectBody(records);
    objs := CollectElements(body, objSize);
  }

  // ---------------------------------------------------------------------------------------------
  // Reading the device id back
  // ---------------------------------------------------------------------------------------------

  predicate HasControl(s: string) {
    s != [] && (IsControl(s[0]) || HasControl(s[1..]))
  }

  /** What the extractor makes of an escape: it drops the backslash and keeps the rest. */
  function Unquoted(c: char): (s: string)
    ensures s != "" && (s == [c] <==> !IsControl(c)) && (IsControl(c) ==> s[0] != c)
  {
    if |EscapeChar(c)| == 1 then EscapeChar(c) else EscapeChar(c)[1..]
  }

  function ReadBack(s: string): string {
    if s == "" then "" else Unquoted(s[0]) + ReadBack(s[1..])
  }

  function Taken(s: string, n: nat): string { if n < |s| then s[..n] else s }

  /** A backslash and what it stands before. */
  lemma ReadBackslash(a: char, x: string, rest: string, room: nat)
    requires a != NUL && Inner(x) && 0 < room
    ensures ReadValue((['\\', a] + x) + rest, room)
         == if room <= 1 + |x| then [a] + x[..room - 1] else [a] + (x + ReadValue(rest, room - 1 - |x|))
  {
    var t := (['\\', a] + x) + rest;
    assert t[0] == '\\' && t[1] == a && t[2..] == x + rest;
    ReadInner(x, rest, room - 1);
  }

  /** One escape: as much of it as fits, then the rest. */
  lemma ReadEscapedChar(c: char, rest: string, room: nat)
    ensures var u := Unquoted(c);
            ReadValue(EscapeChar(c) + rest, room) == if room <= |u| then u[..room] else u + ReadValue(rest, room - |u|)
  {
    var e, u := EscapeChar(c), Unquoted(c);
    if |e| == 1 {
      ReadInner(e, rest, room);
    } else {
      EscapeShape(c);
      ReadQuoted(e, u, rest, room);
    }
  }

  lemma ReadQuoted(e: string, u: string, rest: string, room: nat)
    requires u != "" && e == ['\\', u[0]] + u[1..] && u[0] != NUL && Inner(u[1..])
    ensures ReadValue(e + rest, room) == if room <= |u| then u[..room] else u + ReadValue(rest, room - |u|)
  {
    if 0 < room {
      ReadBackslash(u[0], u[1..], rest, room);
      HeadJoins(u, ReadValue(rest, if room <= |u| then 0 else room - |u|), room);
    }
  }

  lemma HeadJoins(u: string, w: string, room: nat)
    requires u != "" && 0 < room
    ensures room <= |u| ==> [u[0]] + u[1..][..room - 1] == u[..room]
    ensures [u[0]] + (u[1..] + w) == u + w
  {
    assert u == [u[0]] + u[1..];
  }

  lemma EscapeShape(c: char)
    requires |EscapeChar(c)| != 1
    ensures EscapeChar(c) == ['\\', Unquoted(c)[0]] + Unquoted(c)[1..]
    ensures Unquoted(c)[0] != NUL && Inner(Unquoted(c)[1..])
  {
    var e := EscapeChar(c);
    assert e[0] == '\\' && e[1] != NUL;
    if |e| == 2 {
      assert e[1..][1..] == "";
    } else {
      var a, b := c as int / 16, c as int % 16;
      assert e == ['\\', 'u', '0', '0', HexDigit(a), HexDigit(b)];
      assert e[1..][1..] == ['0', '0', HexDigit(a), HexDigit(b)];
    }
  }

  /** Extracting an escaped text gives the text without its backslashes, cut to the buffer. */
  lemma {:induction false} ReadEscaped(s: string, rest: string, room: nat)
    ensures ReadValue(Escape(s) + ("\"" + rest), room) == Taken(ReadBack(s), room)
  {
    var tail := "\"" + rest;
    if s == "" {
      assert Escape(s) + tail == tail;
    } else {
      var c, more := s[0], s[1..];
      var left := if |Unquoted(c)| < room then room - |Unquoted(c)| else 0;
      Assoc(EscapeChar(c), Escape(more), tail);
      ReadEscapedChar(c, Escape(more) + tail, room);
      ReadEscaped(more, rest, left);
    }
  }

  /** With room for it, a text comes back unchanged just when it has no control byte. */
  lemma {:induction false} CleanComesBack(s: string, room: nat)
    requires |s| <= room
    ensures Taken(ReadBack(s), room) == s <==> !HasControl(s)
  {
    if s != "" {
      CleanComesBack(s[1..], room - 1);
    }
  }

  /** What follows the id begins with its closing quote. */
  lemma ProcessAfterQuote(r: SyncRecord)
    ensures FromProcess(r, "") == "\"" + (PROCESS_KEY[1..] + (Escape(r.process) + FromTitle(r, "")))
  {
    assert PROCESS_KEY == "\"" + PROCESS_KEY[1..];
    Assoc("\"", PROCESS_KEY[1..], Escape(r.process) + FromTitle(r, ""));
  }

  /** The pattern is found behind a first character that it does not begin with. */
  lemma ValueOfDevice(json: string, t: string)
    requires json == DEVICE_KEY + t
    ensures ValueText(json, "device_id") == Some("\"" + t)
  {
    var pattern := "\"" + "device_id" + "\"";
    var v := "\"" + t;
    OpenObject(t);
    assert json == ['{'] + (pattern + (":" + v));
    FirstValue("device_id", v);
  }

  /** What is read from the value of a member whose text was escaped. */
  lemma StringReadsBack(v: Option<string>, outSize: nat, id: string, tail: string)
    requires 0 < outSize && v == Some("\"" + (Escape(id) + ("\"" + tail)))
    ensures StringValue(v, outSize) == Some(Taken(ReadBack(id), outSize - 1))
  {
    ReadEscaped(id, tail, outSize - 1);
  }

  lemma BackIffClean(read: Option<string>, outSize: nat, id: string)
    requires |id| < outSize && read == Some(Taken(ReadBack(id), outSize - 1))
    ensures read == Some(id) <==> !HasControl(id)
  {
    CleanComesBack(id, outSize - 1);
  }

  lemma DeviceText(r: SyncRecord, tail: string)
    requires tail == PROCESS_KEY[1..] + (Escape(r.process) + FromTitle(r, ""))
    ensures ValueText(ObjectText(r), "device_id") == Some("\"" + (Escape(r.deviceId) + ("\"" + tail)))
  {
    ProcessAfterQuote(r);
    ValueOfDevice(ObjectText(r), Escape(r.deviceId) + FromProcess(r, ""));
  }

  /** Extracting `device_id` from a sent object gives the id without its escapes' backslashes, cut to the buffer. */
  lemma ExtractDeviceId(r: SyncRecord, outSize: nat)
    requires 0 < outSize
    ensures ExtractString(ObjectText(r), "device_id", outSize) == Some(Taken(ReadBack(r.deviceId), outSize - 1))
  {
    var tail := PROCESS_KEY[1..] + (Escape(r.process) + FromTitle(r, ""));
    DeviceText(r, tail);
    StringReadsBack(ValueText(ObjectText(r), "device_id"), outSize, r.deviceId, tail);
  }

  /** With room for the id, that is the id itself if and only if it has no control byte. */
  lemma DeviceIdSurvives(r: SyncRecord, outSize: nat)
    requires |r.deviceId| < outSize
    ensures ExtractString(ObjectText(r), "device_id", outSize) == Some(r.deviceId) <==> !HasControl(r.deviceId)
  {
    ExtractDeviceId(r, outSize);
    BackIffClean(ExtractString(ObjectText(r), "device_id", outSize), outSize, r.deviceId);
  }
}
