/** The flat JSON reader (src/benchmark/flat_json.cpp) and its printer (serialize in
    src/benchmark/kernel_benchmark_manifest.cpp, json_escape in src/telemetry/telemetry_jsonl.cpp).
    Characters stand for bytes. */
module FlatJson {
  import opened CheckedArithmetic
  import opened TextOrder

  datatype Value = StringValue(text: string) | NumberValue(text: string) | BooleanValue(text: string)

  datatype Field = Field(key: string, value: Value)

  datatype Error = Malformed | DuplicateField(key: string)
  datatype Parsed = Fields(fields: seq<Field>) | Rejected(error: Error)

  // ----- std::map: fields in increasing order of key -----

  predicate Sorted(fs: seq<Field>) { forall i, j :: 0 <= i < j < |fs| ==> Less(fs[i].key, fs[j].key) }

  predicate HasKey(fs: seq<Field>, key: string) { exists i :: 0 <= i < |fs| && fs[i].key == key }

  function Insert(fs: seq<Field>, f: Field): seq<Field> {
    if fs == [] || Less(f.key, fs[0].key) then [f] + fs else [fs[0]] + Insert(fs[1..], f)
  }

  // ----- the reader, on the text still to come -----

  predicate Space(c: char) { c == ' ' || '\t' <= c <= '\r' }

  function SkipSpace(s: string): (r: string)
    ensures |r| <= |s| && (r != "" ==> !Space(r[0]))
  {
    if s != "" && Space(s[0]) then SkipSpace(s[1..]) else s
  }

  /** A value and the text after it. */
  datatype Read<T> = Got(value: T, rest: string) | Failed

  function Unescaped(c: char): Option<char> {
    if c == '"' || c == '\\' || c == '/' then Some(c)
    else if c == 'n' then Some('\n')
    else if c == 'r' then Some('\r')
    else if c == 't' then Some('\t')
    else None
  }

  function Prepend(c: char, r: Read<string>): Read<string> {
    match r case Failed => Failed case Got(value, rest) => Got([c] + value, rest)
  }

  /** The rest of a string whose opening quote has been read. */
  function StringBody(s: string): (r: Read<string>)
    ensures r.Got? ==> |r.rest| < |s|
    decreases |s|
  {
    if s == "" then Failed
    else if s[0] == '"' then Got("", s[1..])
    else if s[0] < ' ' then Failed
    else if s[0] != '\\' then Prepend(s[0], StringBody(s[1..]))
    else if |s| < 2 || Unescaped(s[1]).None? then Failed
    else Prepend(Unescaped(s[1]).value, StringBody(s[2..]))
  }

  function ReadString(s: string): (r: Read<string>)
    ensures r.Got? ==> |r.rest| < |s|
  {
    var t := SkipSpace(s);
    if t == "" || t[0] != '"' then Failed else StringBody(t[1..])
  }

  predicate EndsToken(c: char) { c == ',' || c == '}' || Space(c) }

  function Token(s: string): (n: nat)
    ensures n <= |s|
  {
    if s == "" || EndsToken(s[0]) then 0 else 1 + Token(s[1..])
  }

  function ReadLiteral(s: string): (r: Read<Value>)
    ensures r.Got? ==> |r.rest| <= |s|
  {
    var t := SkipSpace(s);
    if t == "" then Failed
    else if t[0] == '"' then
      match ReadString(t) case Failed => Failed case Got(text, rest) => Got(StringValue(text), rest)
    else if "true" <= t then Got(BooleanValue("true"), t[4..])
    else if "false" <= t then Got(BooleanValue("false"), t[5..])
    else if t[0] == '{' || t[0] == '[' || Token(t) == 0 then Failed
    else Got(NumberValue(t[..Token(t)]), t[Token(t)..])
  }

  /** One key, colon and value. */
  function ReadField(s: string): (r: Read<Field>)
    ensures r.Got? ==> |r.rest| < |s|
  {
    match ReadString(s)
    case Failed => Failed
    case Got(key, rest) =>
      var t := SkipSpace(rest);
      if t == "" || t[0] != ':' then Failed
      else
        match ReadLiteral(t[1..])
        case Failed => Failed
        case Got(value, after) => Got(Field(key, value), after)
  }

  /** The fields after the opening brace, given those already read. */
  function Members(s: string, fs: seq<Field>): Parsed
    decreases |s|
  {
    match ReadField(s)
    case Failed => Rejected(Malformed)
    case Got(f, rest) =>
      if HasKey(fs, f.key) then Rejected(DuplicateField(f.key))
      else
        var t := SkipSpace(rest);
        if t == "" then Rejected(Malformed)
        else if t[0] == '}' then if SkipSpace(t[1..]) == "" then Fields(Insert(fs, f)) else Rejected(Malformed)
        else if t[0] == ',' then Members(t[1..], Insert(fs, f))
        else Rejected(Malformed)
  }

  /** parse_flat_json_object */
  function Parse(json: string): Parsed {
    var s := SkipSpace(json);
    if s == "" || s[0] != '{' then Rejected(Malformed)
    else
      var t := SkipSpace(s[1..]);
      if t != "" && t[0] == '}' then if SkipSpace(t[1..]) == "" then Fields([]) else Rejected(Malformed)
      else Members(t, [])
  }

  // ----- the printer -----

  function Escape(s: string): string {
    if s == "" then "" else Escaped(s[0]) + Escape(s[1..])
  }

  function Escaped(c: char): string {
    if c == '\\' then "\\\\"
    else if c == '"' then "\\\""
    else if c == '\n' then "\\n"
    else if c == '\r' then "\\r"
    else if c == '\t' then "\\t"
    else [c]
  }

  function Quoted(s: string): string { "\"" + Escape(s) + "\"" }

  function Shown(v: Value): string { if v.StringValue? then Quoted(v.text) else v.text }

  function Line(f: Field, last: bool): string {
    "  " + Quoted(f.key) + ": " + Shown(f.value) + (if last then "\n" else ",\n")
  }

  function Lines(fs: seq<Field>): string {
    if fs == [] then "" else Line(fs[0], |fs| == 1) + Lines(fs[1..])
  }

  /** The field-map branch of serialize. */
  function Print(fs: seq<Field>): string { "{\n" + Lines(fs) + "}\n" }

  // ----- what can be printed and read back -----

  predicate StringReadable(s: string) {
    forall i :: 0 <= i < |s| ==> s[i] >= ' ' || s[i] == '\n' || s[i] == '\r' || s[i] == '\t'
  }

  predicate NumberReadable(s: string) {
    && s != "" && s[0] != '"' && s[0] != '{' && s[0] != '[' && !("true" <= s) && !("false" <= s)
    && forall i :: 0 <= i < |s| ==> !EndsToken(s[i])
  }

  predicate Readable(f: Field) {
    && StringReadable(f.key)
    && match f.value
       case StringValue(text) => StringReadable(text)
       case NumberValue(text) => NumberReadable(text)
       case BooleanValue(text) => text == "true" || text == "false"
  }

  predicate AllReadable(fs: seq<Field>) { forall i :: 0 <= i < |fs| ==> Readable(fs[i]) }
}
