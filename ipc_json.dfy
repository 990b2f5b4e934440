/**
 * The JSON text that travels over the control pipe, for the shapes the relay
 * uses: `{"command":<tag>,"data":<fields>}` for a command (serde's adjacently
 * tagged layout; unit variants have no `data`), and a flat object for a
 * response whose `None` fields are left out.  The codec is a small JSON
 * subset (booleans, strings, objects without whitespace) written here, with
 * string escapes as serde_json emits them.
 */
module IpcJson {
  import opened Wrappers
  import opened Ipc

  datatype Json =
    | JBool(b: bool)
    | JString(s: string)
    | JObject(members: seq<Member>)

  /** One `"key":value` pair of an object. */
  datatype Member = Member(key: string, value: Json)

  predicate StartsWith(s: string, prefix: string) {
    |prefix| <= |s| && s[..|prefix|] == prefix
  }

  // ---------------------------------------------------------------------
  // Strings

  function HexDigit(n: nat): (c: char)
    requires n < 16
  {
    if n < 10 then ('0' as int + n) as char else ('a' as int + n - 10) as char
  }

  function HexValue(c: char): (r: Option<nat>)
    ensures r.Some? ==> r.value < 16
  {
    if '0' <= c <= '9' then Some(c as int - '0' as int)
    else if 'a' <= c <= 'f' then Some(c as int - 'a' as int + 10)
    else if 'A' <= c <= 'F' then Some(c as int - 'A' as int + 10)
    else None
  }

  lemma HexRoundTrip(n: nat)
    requires n < 16
    ensures HexValue(HexDigit(n)) == Some(n)
  {
  }

  /** How serde_json writes one character inside a string literal. */
  function EscapeChar(c: char): (e: string)
    ensures |e| > 0
  {
    if c == '"' then "\\\""
    else if c == '\\' then "\\\\"
    else if c == '\n' then "\\n"
    else if c == '\r' then "\\r"
    else if c == '\t' then "\\t"
    else if c == 8 as char then "\\b"
    else if c == 12 as char then "\\f"
    else if c < ' ' then "\\u00" + [HexDigit(c as int / 16), HexDigit(c as int % 16)]
    else [c]
  }

  function Escape(s: string): string {
    if s == [] then [] else EscapeChar(s[0]) + Escape(s[1..])
  }

  function Quote(s: string): string {
    "\"" + Escape(s) + "\""
  }

  /** The character of a four-digit `\u` escape, surrogate halves refused. */
  function UnicodeEscape(s: string): (r: Option<char>)
    requires |s| >= 4
  {
    match (HexValue(s[0]), HexValue(s[1]), HexValue(s[2]), HexValue(s[3]))
    case (Some(a), Some(b), Some(c), Some(d)) =>
      var code := ((a * 16 + b) * 16 + c) * 16 + d;
      if code < 0xD800 || 0xE000 <= code then Some(code as char) else None
    case _ => None
  }

  /**
   * The characters of a string literal after its opening quote, and what
   * follows its closing quote.
   */
  function ParseStringBody(s: string): (r: Option<(string, string)>)
    ensures r.Some? ==> |r.value.1| < |s|
    decreases |s|
  {
    if s == [] then None
    else if s[0] == '"' then Some(("", s[1..]))
    else
      var step: Option<(char, nat)> :=
        if s[0] == '\\' then
          if |s| < 2 then None
          else if s[1] == '"' || s[1] == '\\' || s[1] == '/' then Some((s[1], 2))
          else if s[1] == 'n' then Some(('\n', 2))
          else if s[1] == 'r' then Some(('\r', 2))
          else if s[1] == 't' then Some(('\t', 2))
          else if s[1] == 'b' then Some((8 as char, 2))
          else if s[1] == 'f' then Some((12 as char, 2))
          else if s[1] == 'u' && |s| >= 6 then
            match UnicodeEscape(s[2..6])
            case Some(c) => Some((c, 6))
            case None => None
          else None
        else if s[0] < ' ' then None
        else Some((s[0], 1));
      match step
      case None => None
      case Some((c, k)) =>
        if k > |s| then None
        else
          match ParseStringBody(s[k..])
          case None => None
          case Some((t, rest)) => Some(([c] + t, rest))
  }

  lemma EscapeCharParses(c: char, more: string)
    ensures ParseStringBody(EscapeChar(c) + more) == (
      match ParseStringBody(more)
      case None => None
      case Some((t, rest)) => Some(([c] + t, rest)))
  {
    if c < ' ' && c != '\n' && c != '\r' && c != '\t' && c != 8 as char && c != 12 as char {
      ControlEscapeParses(c, more);
    } else if |EscapeChar(c)| == 2 {
      assert (EscapeChar(c) + more)[2..] == more;
    } else {
      assert EscapeChar(c) == [c];
      assert ([c] + more)[1..] == more;
    }
  }

  /** A control character without a short form reads back from its six-character escape. */
  lemma ControlEscapeParses(c: char, more: string)
    requires c < ' ' && c != '\n' && c != '\r' && c != '\t' && c != 8 as char && c != 12 as char
    ensures ParseStringBody(EscapeChar(c) + more) == (
      match ParseStringBody(more)
      case None => None
      case Some((t, rest)) => Some(([c] + t, rest)))
  {
    var hi, lo := c as int / 16, c as int % 16;
    var s := EscapeChar(c) + more;
    assert EscapeChar(c) == ['\\', 'u', '0', '0', HexDigit(hi), HexDigit(lo)];
    assert s[2..6] == ['0', '0', HexDigit(hi), HexDigit(lo)];
    HexRoundTrip(hi);
    HexRoundTrip(lo);
    assert UnicodeEscape(s[2..6]) == Some(c);
    assert s[6..] == more;
  }

  /** An escaped string followed by its closing quote reads back as the string. */
  lemma {:induction false} StringRoundTrip(t: string, rest: string)
    ensures ParseStringBody(Escape(t) + "\"" + rest) == Some((t, rest))
    decreases |t|
  {
    if t == [] {
      assert Escape(t) + "\"" + rest == "\"" + rest;
      assert ("\"" + rest)[1..] == rest;
    } else {
      assert Escape(t) + "\"" + rest == EscapeChar(t[0]) + (Escape(t[1..]) + "\"" + rest);
      StringRoundTrip(t[1..], rest);
      EscapeCharParses(t[0], Escape(t[1..]) + "\"" + rest);
      assert [t[0]] + t[1..] == t;
    }
  }

  // ---------------------------------------------------------------------
  // Values

  function Serialize(j: Json): string
    decreases j, 1
  {
    match j
    case JBool(b) => if b then "true" else "false"
    case JString(t) => Quote(t)
    case JObject(ms) => "{" + SerializeMembers(ms) + "}"
  }

  /** `"key":value` pairs joined by commas. */
  function SerializeMembers(ms: seq<Member>): string
    decreases ms, 0
  {
    if ms == [] then ""
    else
      assert ms[0] in ms;
      var first := Quote(ms[0].key) + ":" + Serialize(ms[0].value);
      if |ms| == 1 then first else first + "," + SerializeMembers(ms[1..])
  }

  /** A value at the front of `s`, and the text after it. */
  function ParseValue(s: string): (r: Option<(Json, string)>)
    ensures r.Some? ==> |r.value.1| < |s|
    decreases |s|, 1
  {
    if StartsWith(s, "true") then Some((JBool(true), s[4..]))
    else if StartsWith(s, "false") then Some((JBool(false), s[5..]))
    else if |s| > 0 && s[0] == '"' then
      match ParseStringBody(s[1..])
      case None => None
      case Some((t, rest)) => Some((JString(t), rest))
    else if |s| > 1 && s[0] == '{' && s[1] == '}' then Some((JObject([]), s[2..]))
    else if |s| > 0 && s[0] == '{' then
      match ParseMembers(s[1..])
      case None => None
      case Some((ms, rest)) =>
        if |rest| > 0 && rest[0] == '}' then Some((JObject(ms), rest[1..])) else None
    else None
  }

  /** One or more comma-separated members, up to but not including the closing brace. */
  function ParseMembers(s: string): (r: Option<(seq<Member>, string)>)
    ensures r.Some? ==> |r.value.1| < |s|
    decreases |s|, 0
  {
    if |s| == 0 || s[0] != '"' then None
    else
      match ParseStringBody(s[1..])
      case None => None
      case Some((key, afterKey)) =>
        if |afterKey| == 0 || afterKey[0] != ':' then None
        else
          match ParseValue(afterKey[1..])
          case None => None
          case Some((v, afterValue)) =>
            if |afterValue| > 0 && afterValue[0] == ',' then
              match ParseMembers(afterValue[1..])
              case None => None
              case Some((more, rest)) => Some(([Member(key, v)] + more, rest))
            else Some(([Member(key, v)], afterValue))
  }

  /** A serialized value reads back as itself, whatever follows it. */
  lemma {:induction false} ValueRoundTrip(j: Json, rest: string)
    ensures ParseValue(Serialize(j) + rest) == Some((j, rest))
    decreases j, 1
  {
    match j
    case JBool(b) => BoolRoundTrip(b, rest);
    case JString(t) => StringValueRoundTrip(t, rest);
    case JObject(ms) => ObjectRoundTrip(ms, rest);
  }

  lemma StringValueRoundTrip(t: string, rest: string)
    ensures ParseValue(Serialize(JString(t)) + rest) == Some((JString(t), rest))
  {
    var s := Serialize(JString(t)) + rest;
    assert s[0] == '"' && s[1..] == Escape(t) + "\"" + rest;
    StringRoundTrip(t, rest);
    QuotedStep(s, t, rest);
  }

  lemma {:induction false} ObjectRoundTrip(ms: seq<Member>, rest: string)
    ensures ParseValue(Serialize(JObject(ms)) + rest) == Some((JObject(ms), rest))
    decreases JObject(ms), 0
  {
    var s := Serialize(JObject(ms)) + rest;
    if ms == [] {
      assert Serialize(JObject(ms)) == "{}";
      assert s[0] == '{' && s[1] == '}' && s[2..] == rest;
    } else {
      assert s[0] == '{' && s[1..] == SerializeMembers(ms) + ("}" + rest);
      MembersRoundTrip(ms, "}" + rest);
      assert s[1] == '"';
      ObjectStep(s, ms, rest);
    }
  }

  lemma BoolRoundTrip(b: bool, rest: string)
    ensures ParseValue(Serialize(JBool(b)) + rest) == Some((JBool(b), rest))
  {
    var s := Serialize(JBool(b)) + rest;
    if b {
      assert s[..4] == "true";
      assert s[4..] == rest;
    } else {
      assert s[..4] != "true" by { assert s[0] == 'f'; }
      assert s[..5] == "false";
      assert s[5..] == rest;
    }
  }

  /** A text opening with a quote is read as the string its body holds. */
  lemma QuotedStep(s: string, t: string, rest: string)
    requires |s| > 0 && s[0] == '"'
    requires ParseStringBody(s[1..]) == Some((t, rest))
    ensures ParseValue(s) == Some((JString(t), rest))
  {
    assert !StartsWith(s, "true") && !StartsWith(s, "false");
  }

  /** A text opening with a brace and a member is read as the object its members make. */
  lemma ObjectStep(s: string, ms: seq<Member>, rest: string)
    requires |s| > 1 && s[0] == '{' && s[1] == '"'
    requires ParseMembers(s[1..]) == Some((ms, "}" + rest))
    ensures ParseValue(s) == Some((JObject(ms), rest))
  {
    assert !StartsWith(s, "true") && !StartsWith(s, "false");
    assert ("}" + rest)[1..] == rest;
  }

  /** A key and its colon, followed by anything, read back as the key. */
  lemma KeyRoundTrip(key: string, after: string)
    ensures ("\"" + Escape(key) + "\"" + after)[0] == '"'
    ensures ParseStringBody(("\"" + Escape(key) + "\"" + after)[1..]) == Some((key, after))
  {
    SkipQuote(Escape(key), after);
    StringRoundTrip(key, after);
  }

  lemma SkipQuote(body: string, after: string)
    ensures ("\"" + body + "\"" + after)[0] == '"'
    ensures ("\"" + body + "\"" + after)[1..] == body + "\"" + after
  {
  }

  /** One unfolding of `ParseMembers` once its key and value have been read. */
  lemma ParseMembersStep(s: string, key: string, afterKey: string, v: Json, afterValue: string)
    requires |s| > 0 && s[0] == '"' && ParseStringBody(s[1..]) == Some((key, afterKey))
    requires |afterKey| > 0 && afterKey[0] == ':' && ParseValue(afterKey[1..]) == Some((v, afterValue))
    ensures |afterValue| > 0 && afterValue[0] == ',' ==>
      ParseMembers(s) == (
        match ParseMembers(afterValue[1..])
        case None => None
        case Some((more, rest)) => Some(([Member(key, v)] + more, rest)))
    ensures !(|afterValue| > 0 && afterValue[0] == ',') ==> ParseMembers(s) == Some(([Member(key, v)], afterValue))
  {
  }

  /** What follows the first member's value in serialized members. */
  function AfterFirst(ms: seq<Member>, rest: string): string
    requires ms != []
  {
    if |ms| == 1 then rest else "," + (SerializeMembers(ms[1..]) + rest)
  }

  lemma MembersText(ms: seq<Member>, rest: string)
    requires ms != []
    ensures SerializeMembers(ms) + rest
         == "\"" + Escape(ms[0].key) + "\"" + (":" + (Serialize(ms[0].value) + AfterFirst(ms, rest)))
  {
  }

  /** The first of some serialized members reads back as its key, a colon and its value. */
  lemma {:induction false} FirstMemberParses(ms: seq<Member>, rest: string)
    requires ms != []
    ensures var s := SerializeMembers(ms) + rest;
      var afterKey := ":" + (Serialize(ms[0].value) + AfterFirst(ms, rest));
      && |s| > 0 && s[0] == '"' && ParseStringBody(s[1..]) == Some((ms[0].key, afterKey))
      && afterKey[1..] == Serialize(ms[0].value) + AfterFirst(ms, rest)
      && ParseValue(afterKey[1..]) == Some((ms[0].value, AfterFirst(ms, rest)))
    decreases ms, 0
  {
    assert ms[0] in ms;
    var m := ms[0];
    var tail := AfterFirst(ms, rest);
    var afterKey := ":" + (Serialize(m.value) + tail);
    MembersText(ms, rest);
    KeyRoundTrip(m.key, afterKey);
    assert afterKey[1..] == Serialize(m.value) + tail;
    ValueRoundTrip(m.value, tail);
  }

  /** Serialized members read back as themselves, when what follows is not a comma. */
  lemma {:induction false} MembersRoundTrip(ms: seq<Member>, rest: string)
    requires ms != []
    requires |rest| > 0 && rest[0] != ','
    ensures ParseMembers(SerializeMembers(ms) + rest) == Some((ms, rest))
    ensures (SerializeMembers(ms) + rest)[0] == '"'
    decreases ms, 1
  {
    var m := ms[0];
    var tail := AfterFirst(ms, rest);
    var s := SerializeMembers(ms) + rest;
    FirstMemberParses(ms, rest);
    ParseMembersStep(s, m.key, ":" + (Serialize(m.value) + tail), m.value, tail);
    if |ms| == 1 {
      assert [Member(m.key, m.value)] == ms;
    } else {
      assert tail[0] == ',' && tail[1..] == SerializeMembers(ms[1..]) + rest;
      MembersRoundTrip(ms[1..], rest);
      assert [Member(m.key, m.value)] + ms[1..] == ms;
    }
  }

  // ---------------------------------------------------------------------
  // Objects as records

  /** The value of the first member named `key`. */
  function Lookup(ms: seq<Member>, key: string): (r: Option<Json>)
  {
    if ms == [] then None
    else if ms[0].key == key then Some(ms[0].value)
    else Lookup(ms[1..], key)
  }

  lemma {:induction false} LookupAppend(a: seq<Member>, b: seq<Member>, key: string)
    ensures Lookup(a + b, key) == if Lookup(a, key).Some? then Lookup(a, key) else Lookup(b, key)
  {
    if a != [] {
      assert (a + b)[1..] == a[1..] + b;
      LookupAppend(a[1..], b, key);
    } else {
      assert a + b == b;
    }
  }

  /** The member `key` when the field is present, nothing when it is `None` (`skip_serializing_if`). */
  function OptionalBool(key: string, o: Option<bool>): seq<Member> {
    match o
    case None => []
    case Some(v) => [Member(key, JBool(v))]
  }

  function OptionalString(key: string, o: Option<string>): seq<Member> {
    match o
    case None => []
    case Some(v) => [Member(key, JString(v))]
  }

  /** An absent member reads as `None`; a present one must have the field's type. */
  function ReadOptionalBool(ms: seq<Member>, key: string): Option<Option<bool>> {
    match Lookup(ms, key)
    case None => Some(None)
    case Some(JBool(v)) => Some(Some(v))
    case Some(_) => None
  }

  function ReadOptionalString(ms: seq<Member>, key: string): Option<Option<string>> {
    match Lookup(ms, key)
    case None => Some(None)
    case Some(JString(v)) => Some(Some(v))
    case Some(_) => None
  }

  /** Serde's adjacently tagged layout: `command` holds the variant, `data` its fields. */
  function CommandToJson(c: IpcCommand): Json {
    match c
    case SetOutput(id) =>
      JObject([Member("command", JString("SetOutput")), Member("data", JObject([Member("device_id", JString(id))]))])
    case GetStatus => JObject([Member("command", JString("GetStatus"))])
    case Stop => JObject([Member("command", JString("Stop"))])
    case SetMicInput(id) =>
      JObject([Member("command", JString("SetMicInput")), Member("data", JObject([Member("device_id", JString(id))]))])
    case EnableMic(e) =>
      JObject([Member("command", JString("EnableMic")), Member("data", JObject([Member("enabled", JBool(e))]))])
  }

  function CommandFromJson(j: Json): Option<IpcCommand> {
    if !j.JObject? then None
    else
      match Lookup(j.members, "command")
      case Some(JString(tag)) =>
        if tag == "GetStatus" then Some(GetStatus)
        else if tag == "Stop" then Some(Stop)
        else
          (match Lookup(j.members, "data")
           case Some(JObject(d)) =>
             if tag == "SetOutput" || tag == "SetMicInput" then
               (match Lookup(d, "device_id")
                case Some(JString(id)) => Some(if tag == "SetOutput" then SetOutput(id) else SetMicInput(id))
                case _ => None)
             else if tag == "EnableMic" then
               (match Lookup(d, "enabled")
                case Some(JBool(e)) => Some(EnableMic(e))
                case _ => None)
             else None
           case _ => None)
      case _ => None
  }

  function ResponseToJson(r: IpcResponse): Json {
    JObject([Member("success", JBool(r.success)), Member("message", JString(r.message))]
      + OptionalBool("running", r.running)
      + OptionalString("output_device", r.outputDevice)
      + OptionalBool("mic_enabled", r.micEnabled)
      + OptionalString("mic_input_device", r.micInputDevice))
  }

  function ResponseFromJson(j: Json): Option<IpcResponse> {
    if !j.JObject? then None
    else
      var ms := j.members;
      match (Lookup(ms, "success"), Lookup(ms, "message"),
             ReadOptionalBool(ms, "running"), ReadOptionalString(ms, "output_device"),
             ReadOptionalBool(ms, "mic_enabled"), ReadOptionalString(ms, "mic_input_device"))
      case (Some(JBool(ok)), Some(JString(msg)), Some(running), Some(out), Some(mic), Some(micIn)) =>
        Some(IpcResponse(ok, msg, running, out, mic, micIn))
      case _ => None
  }

  // ---------------------------------------------------------------------
  // The pipe's text

  /** `serde_json::to_string` of a command. */
  function EncodeCommand(c: IpcCommand): string {
    Serialize(CommandToJson(c))
  }

  /** `serde_json::from_slice` of a command: one value and nothing after it. */
  function DecodeCommand(text: string): Option<IpcCommand> {
    match ParseValue(text)
    case Some((j, rest)) => if rest == [] then CommandFromJson(j) else None
    case None => None
  }

  function EncodeResponse(r: IpcResponse): string {
    Serialize(ResponseToJson(r))
  }

  function DecodeResponse(text: string): Option<IpcResponse> {
    match ParseValue(text)
    case Some((j, rest)) => if rest == [] then ResponseFromJson(j) else None
    case None => None
  }

  lemma ValueRoundTripAlone(j: Json)
    ensures ParseValue(Serialize(j)) == Some((j, []))
  {
    ValueRoundTrip(j, []);
    assert Serialize(j) + [] == Serialize(j);
  }

  lemma CommandJsonRoundTrip(c: IpcCommand)
    ensures CommandFromJson(CommandToJson(c)) == Some(c)
  {
    var ms := CommandToJson(c).members;
    assert Lookup(ms, "command") == Some(ms[0].value);
    if |ms| == 2 {
      assert "data"[0] != "command"[0];
      assert Lookup(ms, "data") == Some(ms[1].value);
    }
  }

  /** Every command the controller sends is read back unchanged by the relay. */
  lemma CommandRoundTrip(c: IpcCommand)
    ensures DecodeCommand(EncodeCommand(c)) == Some(c)
  {
    ValueRoundTripAlone(CommandToJson(c));
    CommandJsonRoundTrip(c);
  }

  /** The members of an encoded response, in serde's field order. */
  lemma ResponseMembers(r: IpcResponse, key: string)
    ensures Lookup(ResponseToJson(r).members, key) ==
      if key == "success" then Some(JBool(r.success))
      else if key == "message" then Some(JString(r.message))
      else if key == "running" then (if r.running.Some? then Some(JBool(r.running.value)) else None)
      else if key == "output_device" then (if r.outputDevice.Some? then Some(JString(r.outputDevice.value)) else None)
      else if key == "mic_enabled" then (if r.micEnabled.Some? then Some(JBool(r.micEnabled.value)) else None)
      else if key == "mic_input_device" then (if r.micInputDevice.Some? then Some(JString(r.micInputDevice.value)) else None)
      else None
  {
    assert "success" != "message" && "success" != "running" && "message" != "running" by {
      assert "success"[0] != "message"[0] && "success"[0] != "running"[0] && "message"[0] != "running"[0];
    }
    assert |"output_device"| == 13 && |"mic_enabled"| == 11 && |"mic_input_device"| == 16;
    var base := [Member("success", JBool(r.success)), Member("message", JString(r.message))];
    assert Lookup(base, key) == if key == "success" then Some(JBool(r.success))
      else if key == "message" then Some(JString(r.message)) else None by {
      var second := [Member("message", JString(r.message))];
      assert base[1..] == second && second[1..] == [];
      assert Lookup(second, key) == if key == "message" then Some(JString(r.message)) else None;
    }
    LookupFive(base, OptionalBool("running", r.running), OptionalString("output_device", r.outputDevice),
      OptionalBool("mic_enabled", r.micEnabled), OptionalString("mic_input_device", r.micInputDevice), key);
  }

  lemma ResponseJsonRoundTrip(r: IpcResponse)
    ensures ResponseFromJson(ResponseToJson(r)) == Some(r)
  {
    ResponseMembers(r, "success");
    ResponseMembers(r, "message");
    ResponseMembers(r, "running");
    ResponseMembers(r, "output_device");
    ResponseMembers(r, "mic_enabled");
    ResponseMembers(r, "mic_input_device");
  }

  /** Every response the relay sends is read back unchanged by the controller. */
  lemma ResponseRoundTrip(r: IpcResponse)
    ensures DecodeResponse(EncodeResponse(r)) == Some(r)
  {
    ValueRoundTripAlone(ResponseToJson(r));
    ResponseJsonRoundTrip(r);
  }

  /** The first of five concatenated member lists that has `key` decides its value. */
  lemma LookupFive(p: seq<Member>, a: seq<Member>, b: seq<Member>, c: seq<Member>, d: seq<Member>, key: string)
    ensures Lookup(p + a + b + c + d, key) ==
      if Lookup(p, key).Some? then Lookup(p, key)
      else if Lookup(a, key).Some? then Lookup(a, key)
      else if Lookup(b, key).Some? then Lookup(b, key)
      else if Lookup(c, key).Some? then Lookup(c, key)
      else Lookup(d, key)
  {
    LookupAppend(p + a + b + c, d, key);
    LookupAppend(p + a + b, c, key);
    LookupAppend(p + a, b, key);
    LookupAppend(p, a, key);
  }

  /** A `None` field is absent from the encoded response, and a `Some` field present. */
  lemma ResponseOmitsNone(r: IpcResponse)
    ensures Lookup(ResponseToJson(r).members, "running").Some? <==> r.running.Some?
    ensures Lookup(ResponseToJson(r).members, "output_device").Some? <==> r.outputDevice.Some?
    ensures Lookup(ResponseToJson(r).members, "mic_enabled").Some? <==> r.micEnabled.Some?
    ensures Lookup(ResponseToJson(r).members, "mic_input_device").Some? <==> r.micInputDevice.Some?
  {
    ResponseMembers(r, "running");
    ResponseMembers(r, "output_device");
    ResponseMembers(r, "mic_enabled");
    ResponseMembers(r, "mic_input_device");
  }

  /** Unit variants are written as their tag alone; the others carry their fields under `data`. */
  lemma DataOnlyWithFields(c: IpcCommand)
    ensures Lookup(CommandToJson(c).members, "command").Some?
    ensures Lookup(CommandToJson(c).members, "data").None? <==> (c == GetStatus || c == Stop)
  {
    assert "data"[0] != "command"[0];
  }
}
