/**
 A reader for JSON as RFC 8259 defines it, and what it makes of the bodies the agent writes.

 The reader knows nothing of the writer.  It takes a text from the front: blanks, then a value by its first
 character; a string up to its closing quote, decoded by `Unescape`; a number as far as number characters go,
 read by `Atoi`; members and items up to the closing brace or bracket.

 The lemmas go the other way, from what is written: strings and numbers first, then a member with what follows
 it, then the six members from the last to the first, then objects and arrays.
 */
module JsonRead {
  import opened Decimal
  import opened JsonText
  import opened JsonScan
  import opened RecordJson

  /** The values the agent writes: strings, integers, objects and arrays. */
  datatype Json =
    | Text(text: string)
    | Integer(value: int)
    | Object(members: map<string, Json>)
    | Items(items: seq<Json>)

  /** What was read, and the text behind it. */
  datatype Reading<+T> = Failed | Read(value: T, rest: string)

  function Skip(t: string): (u: string)
    ensures |u| <= |t|
  {
    t[SkipBlanks(t)..]
  }

  // ---------------------------------------------------------------------------------------------
  // The grammar
  // ---------------------------------------------------------------------------------------------

  /** The place of the quote that closes a string. */
  function StringEnd(t: string): (n: nat)
    ensures n <= |t|
    decreases |t|
  {
    if t == "" || t[0] == '"' then 0
    else if t[0] == '\\' && |t| >= 2 then 2 + StringEnd(t[2..])
    else 1 + StringEnd(t[1..])
  }

  /** Section 7: a string. */
  function ReadString(t: string): (r: Reading<string>)
    ensures r.Read? ==> |r.rest| < |t|
  {
    if t == "" || t[0] != '"' then Failed
    else
      var n := StringEnd(t[1..]);
      if n == |t| - 1 then Failed
      else
        match Unescape(t[1..][..n])
        case None => Failed
        case Some(s) => Read(s, t[1..][n + 1..])
  }

  predicate IsNumberChar(c: char) { IsDigit(c) || c == '-' || c == '+' || c == '.' || c == 'e' || c == 'E' }

  function NumberEnd(t: string): (n: nat)
    ensures n <= |t|
  {
    if t != "" && IsNumberChar(t[0]) then 1 + NumberEnd(t[1..]) else 0
  }

  /** Section 6: a number without fraction and exponent. */
  predicate IsInteger(s: string) {
    var d := if s != "" && s[0] == '-' then s[1..] else s;
    d != "" && (forall i :: 0 <= i < |d| ==> IsDigit(d[i])) && (d[0] == '0' ==> |d| == 1)
  }

  function ReadInteger(t: string): (r: Reading<int>)
    ensures r.Read? ==> |r.rest| < |t|
  {
    var n := NumberEnd(t);
    if IsInteger(t[..n]) then Read(Atoi(t[..n]), t[n..]) else Failed
  }

  /** Section 3: a value, with blanks before it. */
  function ReadJson(t: string): (r: Reading<Json>)
    ensures r.Read? ==> |r.rest| < |t|
    decreases |t|, 0
  {
    var u := Skip(t);
    if u == "" then Failed
    else if u[0] == '"' then
      match ReadString(u)
      case Failed => Failed
      case Read(s, rest) => Read(Text(s), rest)
    else if u[0] == '{' then
      var v := Skip(u[1..]);
      if v != "" && v[0] == '}' then Read(Object(map[]), v[1..])
      else
        match ReadMembers(v)
        case Failed => Failed
        case Read(m, rest) => Read(Object(m), rest)
    else if u[0] == '[' then
      var v := Skip(u[1..]);
      if v != "" && v[0] == ']' then Read(Items([]), v[1..])
      else
        match ReadItems(v)
        case Failed => Failed
        case Read(s, rest) => Read(Items(s), rest)
    else
      match ReadInteger(u)
      case Failed => Failed
      case Read(n, rest) => Read(Integer(n), rest)
  }

  /** Section 4: the members of an object up to its closing brace; of equal names the last one counts. */
  function ReadMembers(t: string): (r: Reading<map<string, Json>>)
    ensures r.Read? ==> |r.rest| < |t|
    decreases |t|, 1
  {
    match ReadString(t)
    case Failed => Failed
    case Read(name, rest) =>
      var u := Skip(rest);
      if u == "" || u[0] != ':' then Failed
      else
        match ReadJson(u[1..])
        case Failed => Failed
        case Read(value, more) =>
          var v := Skip(more);
          if v != "" && v[0] == '}' then Read(map[name := value], v[1..])
          else if v != "" && v[0] == ',' then
            match ReadMembers(Skip(v[1..]))
            case Failed => Failed
            case Read(m, end) => Read(map[name := value] + m, end)
          else Failed
  }

  /** Section 5: the items of an array up to its closing bracket. */
  function ReadItems(t: string): (r: Reading<seq<Json>>)
    ensures r.Read? ==> |r.rest| < |t|
    decreases |t|, 1
  {
    match ReadJson(t)
    case Failed => Failed
    case Read(item, more) =>
      var v := Skip(more);
      if v != "" && v[0] == ']' then Read([item], v[1..])
      else if v != "" && v[0] == ',' then
        match ReadItems(v[1..])
        case Failed => Failed
        case Read(items, end) => Read([item] + items, end)
      else Failed
  }

  /** Section 2: a text is one value, with blanks around it. */
  function ReadText(t: string): Option<Json> {
    match ReadJson(t)
    case Failed => None
    case Read(value, rest) => if Skip(rest) == "" then Some(value) else None
  }

  // ---------------------------------------------------------------------------------------------
  // Strings and numbers as they are written
  // ---------------------------------------------------------------------------------------------

  lemma EndPastChar(c: char, rest: string)
    ensures StringEnd(EscapeChar(c) + rest) == |EscapeChar(c)| + StringEnd(rest)
  {
    var e := EscapeChar(c);
    var t := e + rest;
    if |e| == 1 {
      assert t[1..] == rest;
    } else if |e| == 2 {
      assert t[2..] == rest;
    } else {
      var a, b := HexDigit(c as int / 16), HexDigit(c as int % 16);
      assert t[2..] == ['0', '0', a, b] + rest;
      EndPastHex(a, b, rest);
    }
  }

  lemma EndPastHex(a: char, b: char, rest: string)
    requires a != '"' && a != '\\' && b != '"' && b != '\\'
    ensures StringEnd(['0', '0', a, b] + rest) == 4 + StringEnd(rest)
  {
    var t := ['0', '0', a, b] + rest;
    assert t[1..][1..] == [a, b] + rest;
    assert t[1..][1..][1..] == [b] + rest;
    assert t[1..][1..][1..][1..] == rest;
    assert StringEnd(t[1..][1..]) == 2 + StringEnd(rest);
  }

  lemma {:induction false} EndPastEscape(s: string, rest: string)
    ensures StringEnd(Escape(s) + ("\"" + rest)) == |Escape(s)|
  {
    if s == "" {
      assert Escape(s) + ("\"" + rest) == "\"" + rest;
    } else {
      Assoc(EscapeChar(s[0]), Escape(s[1..]), "\"" + rest);
      EndPastChar(s[0], Escape(s[1..]) + ("\"" + rest));
      EndPastEscape(s[1..], rest);
    }
  }

  /** An escaped text between quotes is read back. */
  lemma ReadsEscaped(s: string, rest: string)
    ensures ReadString("\"" + (Escape(s) + ("\"" + rest))) == Read(s, rest)
  {
    var e := Escape(s);
    var u := e + ("\"" + rest);
    assert ("\"" + u)[1..] == u;
    EndPastEscape(s, rest);
    EscapeRoundTrip(s);
    assert u[..|e|] == e && u[|e| + 1..] == rest;
  }

  lemma {:induction false} NoLeadingZero(n: nat)
    ensures Digits(n)[0] == '0' ==> |Digits(n)| == 1
    ensures 0 < n ==> Digits(n)[0] != '0'
  {
    if n >= 10 { NoLeadingZero(n / 10); }
  }

  lemma {:induction false} NumberEndsBehind(s: string, rest: string)
    requires (forall i :: 0 <= i < |s| ==> IsNumberChar(s[i])) && rest != "" && !IsNumberChar(rest[0])
    ensures NumberEnd(s + rest) == |s|
  {
    if s == "" {
      assert s + rest == rest;
    } else {
      assert (s + rest)[1..] == s[1..] + rest;
      NumberEndsBehind(s[1..], rest);
    }
  }

  /** A printed integer is read back, if no other number character follows. */
  lemma ReadsPrinted(n: int, rest: string)
    requires rest != "" && !IsNumberChar(rest[0])
    ensures ReadInteger(Print(n) + rest) == Read(n, rest)
  {
    var s := Print(n);
    NoLeadingZero(if n < 0 then -n else n);
    if n < 0 { assert s[1..] == Digits(-n); }
    NumberEndsBehind(s, rest);
    assert (s + rest)[..|s|] == s && (s + rest)[|s|..] == rest;
    AtoiPrint(n);
  }

  lemma SkipNothing(t: string)
    requires t != "" && !IsBlank(t[0])
    ensures Skip(t) == t
  {
  }

  /** The same as values. */
  lemma ReadsTextValue(s: string, rest: string)
    ensures ReadJson("\"" + (Escape(s) + ("\"" + rest))) == Read(Text(s), rest)
  {
    SkipNothing("\"" + (Escape(s) + ("\"" + rest)));
    ReadsEscaped(s, rest);
  }

  lemma ReadsIntegerValue(n: int, rest: string)
    requires rest != "" && !IsNumberChar(rest[0])
    ensures ReadJson(Print(n) + rest) == Read(Integer(n), rest)
  {
    ReadsPrinted(n, rest);
    IntegerHere(Print(n) + rest, n, rest);
  }

  lemma IntegerHere(t: string, n: int, rest: string)
    requires t != "" && (IsDigit(t[0]) || t[0] == '-') && ReadInteger(t) == Read(n, rest)
    ensures ReadJson(t) == Read(Integer(n), rest)
  {
    SkipNothing(t);
  }

  // ---------------------------------------------------------------------------------------------
  // Members
  // ---------------------------------------------------------------------------------------------

  /** A name that needs no escapes. */
  predicate IsName(s: string) {
    forall i :: 0 <= i < |s| ==> s[i] != '"' && s[i] != '\\' && !IsControl(s[i])
  }

  lemma {:induction false} NameIsEscaped(s: string)
    requires IsName(s)
    ensures Escape(s) == s
  {
    if s != "" {
      NameIsEscaped(s[1..]);
      assert [s[0]] + s[1..] == s;
    }
  }

  lemma ReadsName(name: string, text: string)
    requires IsName(name)
    ensures ReadString("\"" + (name + ("\":" + text))) == Read(name, ":" + text)
  {
    NameIsEscaped(name);
    assert "\":" + text == "\"" + (":" + text);
    ReadsEscaped(name, ":" + text);
  }

  /** What follows a value in an object: its end, or more members. */
  predicate GoesOn(more: string) {
    && more != ""
    && (more[0] == '}' || (more[0] == ',' && 1 < |more| && !IsBlank(more[1]) && ReadMembers(more[1..]).Read?))
  }

  function With(name: string, value: Json, more: string): Reading<map<string, Json>>
    requires GoesOn(more)
  {
    if more[0] == '}' then Read(map[name := value], more[1..])
    else Read(map[name := value] + ReadMembers(more[1..]).value, ReadMembers(more[1..]).rest)
  }

  lemma MembersStep(t: string, name: string, text: string, value: Json, more: string)
    requires ReadString(t) == Read(name, ":" + text) && ReadJson(text) == Read(value, more) && GoesOn(more)
    ensures ReadMembers(t) == With(name, value, more)
  {
    SkipNothing(":" + text);
    assert (":" + text)[1..] == text;
    SkipNothing(more);
    if more[0] == ',' { SkipNothing(more[1..]); }
  }

  /** A name, its colon, a value, and what follows. */
  lemma ReadsMember(name: string, value: Json, text: string, more: string)
    requires IsName(name) && ReadJson(text) == Read(value, more) && GoesOn(more)
    ensures ReadMembers("\"" + (name + ("\":" + text))) == With(name, value, more)
  {
    ReadsName(name, text);
    MembersStep("\"" + (name + ("\":" + text)), name, text, value, more);
  }

  // ---------------------------------------------------------------------------------------------
  // The objects and arrays the agent sends
  // ---------------------------------------------------------------------------------------------

  /** The object a record stands for. */
  function Members(r: SyncRecord): map<string, Json> {
    map["device_id" := Text(r.deviceId), "process_name" := Text(r.process), "window_title" := Text(r.title),
        "duration_seconds" := Integer(r.duration), "start_time" := Integer(r.start), "end_time" := Integer(r.end)]
  }

  lemma CommaName(lit: string, name: string, v: string)
    requires lit == ",\"" + (name + "\":")
    ensures lit + v == "," + ("\"" + (name + ("\":" + v)))
  {
    Assoc(",\"", name + "\":", v);
    Assoc(name, "\":", v);
    assert ",\"" + (name + ("\":" + v)) == "," + ("\"" + (name + ("\":" + v)));
  }

  lemma IntegerMember(name: string, n: int, more: string)
    requires IsName(name) && GoesOn(more)
    ensures ReadMembers("\"" + (name + ("\":" + (Print(n) + more)))) == With(name, Integer(n), more)
  {
    ReadsIntegerValue(n, more);
    ReadsMember(name, Integer(n), Print(n) + more, more);
  }

  lemma TextMember(name: string, s: string, more: string)
    requires IsName(name) && GoesOn(more)
    ensures ReadMembers("\"" + (name + ("\":" + ("\"" + (Escape(s) + ("\"" + more)))))) == With(name, Text(s), more)
  {
    ReadsTextValue(s, more);
    ReadsMember(name, Text(s), "\"" + (Escape(s) + ("\"" + more)), more);
  }

  /** More members, behind a comma, that end before `rest`. */
  predicate Follow(t: string, m: map<string, Json>, rest: string) {
    1 < |t| && t[0] == ',' && t[1] == '"' && ReadMembers(t[1..]) == Read(m, rest)
  }

  lemma FollowGoesOn(t: string, m: map<string, Json>, rest: string, name: string, value: Json)
    requires Follow(t, m, rest)
    ensures GoesOn(t) && With(name, value, t) == Read(map[name := value] + m, rest)
  {
  }

  lemma Comma(u: string, m: map<string, Json>, rest: string)
    requires u != "" && u[0] == '"' && ReadMembers(u) == Read(m, rest)
    ensures Follow("," + u, m, rest)
  {
    assert ("," + u)[1..] == u;
  }

  /** A number in front of what follows. */
  lemma NumberFollows(lit: string, name: string, n: int, more: string, m: map<string, Json>, rest: string)
    requires IsName(name) && lit == ",\"" + (name + "\":")
    requires Follow(more, m, rest)
    ensures Follow(lit + (Print(n) + more), map[name := Integer(n)] + m, rest)
  {
    var v := Print(n) + more;
    FollowGoesOn(more, m, rest, name, Integer(n));
    IntegerMember(name, n, more);
    CommaName(lit, name, v);
    Comma("\"" + (name + ("\":" + v)), map[name := Integer(n)] + m, rest);
  }

  /** The last number, before the closing brace. */
  lemma LastNumberFollows(lit: string, name: string, n: int, rest: string)
    requires IsName(name) && lit == ",\"" + (name + "\":")
    ensures Follow(lit + (Print(n) + ("}" + rest)), map[name := Integer(n)], rest)
  {
    var v := Print(n) + ("}" + rest);
    assert ("}" + rest)[1..] == rest;
    IntegerMember(name, n, "}" + rest);
    CommaName(lit, name, v);
    Comma("\"" + (name + ("\":" + v)), map[name := Integer(n)], rest);
  }

  /** A text in front of what follows its closing quote. */
  lemma TextFollows(lit: string, name: string, s: string, more: string, m: map<string, Json>, rest: string)
    requires IsName(name) && lit == ",\"" + (name + "\":")
    requires Follow(more, m, rest)
    ensures Follow(lit + ("\"" + (Escape(s) + ("\"" + more))), map[name := Text(s)] + m, rest)
  {
    var v := "\"" + (Escape(s) + ("\"" + more));
    FollowGoesOn(more, m, rest, name, Text(s));
    TextMember(name, s, more);
    CommaName(lit, name, v);
    Comma("\"" + (name + ("\":" + v)), map[name := Text(s)] + m, rest);
  }

  // The literal keys, taken apart.

  lemma EndKey()
    ensures END_KEY == ",\"" + ("end_time" + "\":") && IsName("end_time")
  {
  }

  lemma StartKey()
    ensures START_KEY == ",\"" + ("start_time" + "\":") && IsName("start_time")
  {
  }

  lemma DurationKey()
    ensures DURATION_KEY == "\"" + (",\"" + ("duration_seconds" + "\":")) && IsName("duration_seconds")
  {
  }

  lemma NamesAreNames()
    ensures IsName("window_title") && IsName("process_name") && IsName("device_id")
  {
  }

  lemma EndFollows(r: SyncRecord, rest: string)
    ensures Follow(FromEnd(r, rest), map["end_time" := Integer(r.end)], rest)
  {
    EndKey();
    LastNumberFollows(END_KEY, "end_time", r.end, rest);
  }

  lemma StartFollows(r: SyncRecord, rest: string)
    ensures Follow(FromStart(r, rest), map["start_time" := Integer(r.start)] + map["end_time" := Integer(r.end)], rest)
  {
    EndFollows(r, rest);
    StartKey();
    NumberFollows(START_KEY, "start_time", r.start, FromEnd(r, rest), map["end_time" := Integer(r.end)], rest);
  }

  function Times(r: SyncRecord): map<string, Json> {
    map["duration_seconds" := Integer(r.duration)]
    + (map["start_time" := Integer(r.start)] + map["end_time" := Integer(r.end)])
  }

  /** The text behind the closing quote of the title. */
  lemma DurationFollows(r: SyncRecord, rest: string) returns (d: string)
    ensures FromDuration(r, rest) == "\"" + d && Follow(d, Times(r), rest)
  {
    var lit, v := ",\"" + ("duration_seconds" + "\":"), Print(r.duration) + FromStart(r, rest);
    DurationKey();
    StartFollows(r, rest);
    NumberFollows(lit, "duration_seconds", r.duration, FromStart(r, rest),
                  map["start_time" := Integer(r.start)] + map["end_time" := Integer(r.end)], rest);
    Assoc("\"", lit, v);
    d := lit + v;
  }

  /** `key` closes the string before it and opens the next one. */
  lemma NextText(key: string, name: string, s: string, more: string, m: map<string, Json>, rest: string)
    returns (d: string)
    requires IsName(name) && key == "\",\"" + (name + "\":\"") && Follow(more, m, rest)
    ensures key + (Escape(s) + ("\"" + more)) == "\"" + d && Follow(d, map[name := Text(s)] + m, rest)
  {
    var lit, v := ",\"" + (name + "\":"), Escape(s) + ("\"" + more);
    TextFollows(lit, name, s, more, m, rest);
    d := lit + ("\"" + v);
    KeySplits(key, lit, name, v);
  }

  lemma KeySplits(key: string, lit: string, name: string, v: string)
    requires key == "\",\"" + (name + "\":\"") && lit == ",\"" + (name + "\":")
    ensures key + v == "\"" + (lit + ("\"" + v))
  {
    assert key == "\"" + (lit + "\"");
    Assoc("\"", lit + "\"", v);
    Assoc(lit, "\"", v);
  }

  lemma TitleFollows(r: SyncRecord, rest: string) returns (d: string)
    ensures FromTitle(r, rest) == "\"" + d && Follow(d, map["window_title" := Text(r.title)] + Times(r), rest)
  {
    var more := DurationFollows(r, rest);
    TitleKey();
    NamesAreNames();
    d := NextText(TITLE_KEY, "window_title", r.title, more, Times(r), rest);
  }

  lemma ProcessFollows(r: SyncRecord, rest: string) returns (d: string)
    ensures FromProcess(r, rest) == "\"" + d
    ensures Follow(d, map["process_name" := Text(r.process)] + (map["window_title" := Text(r.title)] + Times(r)), rest)
  {
    var more := TitleFollows(r, rest);
    ProcessKey();
    NamesAreNames();
    d := NextText(PROCESS_KEY, "process_name", r.process, more, map["window_title" := Text(r.title)] + Times(r), rest);
  }

  lemma MembersUnite(r: SyncRecord)
    ensures map["device_id" := Text(r.deviceId)]
            + (map["process_name" := Text(r.process)] + (map["window_title" := Text(r.title)] + Times(r))) == Members(r)
  {
  }

  lemma ObjectHere(u: string, m: map<string, Json>, rest: string)
    requires u != "" && u[0] == '"' && ReadMembers(u) == Read(m, rest)
    ensures ReadJson("{" + u) == Read(Object(m), rest)
  {
    SkipNothing("{" + u);
    assert ("{" + u)[1..] == u;
    SkipNothing(u);
  }

  /** A sent object is read as its six members, each under its own name. */
  lemma ReadsObject(r: SyncRecord, rest: string)
    ensures ReadJson(ObjectText(r) + rest) == Read(Object(Members(r)), rest)
  {
    var more := ProcessFollows(r, rest);
    var m := map["process_name" := Text(r.process)] + (map["window_title" := Text(r.title)] + Times(r));
    var v := Escape(r.deviceId) + ("\"" + more);
    NamesAreNames();
    FollowGoesOn(more, m, rest, "device_id", Text(r.deviceId));
    TextMember("device_id", r.deviceId, more);
    MembersUnite(r);
    ObjectThen(r, rest);
    OpenDevice(v);
    ObjectHere("\"" + ("device_id" + ("\":" + ("\"" + v))), Members(r), rest);
  }

  lemma OpenDevice(v: string)
    ensures DEVICE_KEY + v == "{" + ("\"" + ("device_id" + ("\":" + ("\"" + v))))
  {
    OpenObject(v);
    assert "\":" + ("\"" + v) == "\"" + (":" + ("\"" + v));
  }

  function Objects(rs: seq<SyncRecord>): (js: seq<Json>)
    ensures |js| == |rs| && forall i :: 0 <= i < |rs| ==> js[i] == Object(Members(rs[i]))
  {
    seq(|rs|, i requires 0 <= i < |rs| => Object(Members(rs[i])))
  }

  /** Whatever follows the text, it is read as this value. */
  ghost predicate Stands(text: string, item: Json) {
    forall rest: string {:trigger ReadJson(text + rest)} :: ReadJson(text + rest) == Read(item, rest)
  }

  lemma {:induction false} ReadsItems(texts: seq<string>, items: seq<Json>)
    requires texts != [] && |texts| == |items| && forall i :: 0 <= i < |texts| ==> Stands(texts[i], items[i])
    ensures ReadItems(Join(texts) + "]") == Read(items, "")
    decreases |texts|
  {
    if |texts| == 1 {
      LastItem(texts[0], items[0]);
      assert items == [items[0]];
    } else {
      ReadsItems(texts[1..], items[1..]);
      NextItem(texts[0], items[0], Join(texts[1..]) + "]", items[1..]);
      Assoc3(texts[0], ",", Join(texts[1..]), "]");
      assert items == [items[0]] + items[1..];
    }
  }

  lemma LastItem(text: string, item: Json)
    requires Stands(text, item)
    ensures ReadItems(text + "]") == Read([item], "")
  {
    assert ReadJson(text + "]") == Read(item, "]");
    SkipNothing("]");
  }

  lemma NextItem(text: string, item: Json, more: string, items: seq<Json>)
    requires Stands(text, item) && ReadItems(more) == Read(items, "")
    ensures ReadItems(text + ("," + more)) == Read([item] + items, "")
  {
    assert ReadJson(text + ("," + more)) == Read(item, "," + more);
    SkipNothing("," + more);
    assert ("," + more)[1..] == more;
  }

  lemma ArrayHere(u: string, items: seq<Json>)
    requires u != "" && u[0] == '{' && ReadItems(u) == Read(items, "")
    ensures ReadJson("[" + u) == Read(Items(items), "")
  {
    SkipNothing("[" + u);
    assert ("[" + u)[1..] == u;
    SkipNothing(u);
  }

  lemma EmptyArray()
    ensures ReadJson("[]") == Read(Items([]), "")
  {
    SkipNothing("[]");
    assert "[]"[1..] == "]" && "]"[1..] == "";
    SkipNothing("]");
  }

  lemma ObjectStands(r: SyncRecord)
    ensures Stands(ObjectText(r), Object(Members(r)))
  {
    forall rest: string ensures ReadJson(ObjectText(r) + rest) == Read(Object(Members(r)), rest) {
      ReadsObject(r, rest);
    }
  }

  lemma ReadsAlone(text: string, item: Json)
    requires Stands(text, item)
    ensures ReadText(text) == Some(item)
  {
    assert text + "" == text;
  }

  /** So the body of any list of records is the JSON it stands for: one object, or the array of the objects. */
  lemma ReadsBody(rs: seq<SyncRecord>)
    ensures ReadText(BodyText(rs)) == Some(if |rs| == 1 then Object(Members(rs[0])) else Items(Objects(rs)))
  {
    if |rs| == 1 {
      ObjectStands(rs[0]);
      ReadsAlone(ObjectText(rs[0]), Object(Members(rs[0])));
    } else if rs == [] {
      EmptyArray();
      assert Objects(rs) == [] && "[" + ("" + "]") == "[]";
    } else {
      ReadsArray(rs);
    }
  }

  lemma ReadsArray(rs: seq<SyncRecord>)
    requires rs != []
    ensures ReadJson("[" + (Join(Texts(rs)) + "]")) == Read(Items(Objects(rs)), "")
  {
    forall i | 0 <= i < |rs| ensures Stands(Texts(rs)[i], Objects(rs)[i]) { ObjectStands(rs[i]); }
    ReadsItems(Texts(rs), Objects(rs));
    OpensWithBrace(rs);
    ArrayHere(Join(Texts(rs)) + "]", Objects(rs));
  }

  lemma OpensWithBrace(rs: seq<SyncRecord>)
    requires rs != []
    ensures Join(Texts(rs)) != "" && Join(Texts(rs))[0] == '{'
  {
    assert ObjectText(rs[0])[0] == DEVICE_KEY[0];
  }
}
