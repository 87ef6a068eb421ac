/** The reader and the printer as they run: a position advanced through the text, output built in
    place. Each is proved against FlatJson. */
module FlatJsonReader {
  import opened CheckedArithmetic
  import opened FlatJson

  method SkipWs(value: string, start: nat) returns (position: nat)
    requires start <= |value|
    ensures start <= position <= |value| && value[position..] == SkipSpace(value[start..])
  {
    position := start;
    while position < |value| && Space(value[position])
      invariant start <= position <= |value| && SkipSpace(value[position..]) == SkipSpace(value[start..])
    {
      position := position + 1;
    }
  }

  /** What has been read stands before what is still to be read. */
  function Continued(parsed: string, r: Read<string>): Read<string> {
    match r case Failed => Failed case Got(value, rest) => Got(parsed + value, rest)
  }

  lemma ContinuedBy(parsed: string, c: char, r: Read<string>)
    ensures Continued(parsed, Prepend(c, r)) == Continued(parsed + [c], r)
  {
    if r.Got? {
      assert parsed + ([c] + r.value) == parsed + [c] + r.value;
    }
  }

  method ParseJsonString(value: string, start: nat) returns (ok: bool, position: nat, output: string)
    requires start <= |value|
    ensures start <= position <= |value|
    ensures ReadString(value[start..]) == if ok then Got(output, value[position..]) else Failed
  {
    hide SkipSpace, StringBody;
    position := SkipWs(value, start);
    if position >= |value| || value[position] != '"' { return false, position, ""; }
    ok, position, output := ParseStringBody(value, position + 1);
  }

  /** The loop that follows the opening quote. */
  method ParseStringBody(value: string, start: nat) returns (ok: bool, position: nat, output: string)
    requires start <= |value|
    ensures start <= position <= |value|
    ensures StringBody(value[start..]) == if ok then Got(output, value[position..]) else Failed
  {
    position, output := start, "";
    ghost var all := StringBody(value[start..]);
    assert Continued("", all) == all by { if all.Got? { assert "" + all.value == all.value; } }
    while position < |value|
      invariant start <= position <= |value| && Continued(output, StringBody(value[position..])) == all
    {
      var ch := value[position];
      BodyHere(value, position);
      hide StringBody;
      position := position + 1;
      if ch == '"' {
        assert output + "" == output;
        return true, position, output;
      }
      if ch < ' ' { return false, position, output; }
      if ch == '\\' {
        if position >= |value| { return false, position, output; }
        var escaped := value[position];
        position := position + 1;
        if Unescaped(escaped).None? { return false, position, output; }
        ch := Unescaped(escaped).value;
      }
      ContinuedBy(output, ch, StringBody(value[position..]));
      output := output + [ch];
    }
    return false, position, output;
  }

  /** One step of the body, by position. */
  lemma BodyHere(value: string, position: nat)
    requires position < |value|
    ensures StringBody(value[position..]) ==
      var c := value[position];
      if c == '"' then Got("", value[position + 1..])
      else if c < ' ' then Failed
      else if c != '\\' then Prepend(c, StringBody(value[position + 1..]))
      else if position + 1 >= |value| || Unescaped(value[position + 1]).None? then Failed
      else Prepend(Unescaped(value[position + 1]).value, StringBody(value[position + 2..]))
  {
    var s := value[position..];
    assert s[1..] == value[position + 1..];
    assert position + 1 < |value| ==> s[2..] == value[position + 2..];
  }

  method ParseJsonLiteral(json: string, begin: nat) returns (ok: bool, position: nat, output: Value)
    requires begin <= |json|
    ensures begin <= position <= |json|
    ensures ReadLiteral(json[begin..]) == if ok then Got(output, json[position..]) else Failed
  {
    hide SkipSpace, ReadString, Token;
    output := StringValue("");
    position := SkipWs(json, begin);
    if position >= |json| { return false, position, output; }
    if json[position] == '"' {
      var text;
      ok, position, text := ParseJsonString(json, position);
      output := StringValue(text);
      return;
    }
    if "true" <= json[position..] { return true, position + 4, BooleanValue("true"); }
    if "false" <= json[position..] { return true, position + 5, BooleanValue("false"); }
    if json[position] == '{' || json[position] == '[' { return false, position, output; }
    var start := position;
    position := ScanToken(json, start);
    if start == position { return false, position, output; }
    assert json[start..][..position - start] == json[start..position];
    return true, position, NumberValue(json[start..position]);
  }

  method ScanToken(json: string, start: nat) returns (position: nat)
    requires start <= |json|
    ensures start <= position <= |json| && Token(json[start..]) == position - start
  {
    position := start;
    while position < |json| && !EndsToken(json[position])
      invariant start <= position <= |json| && Token(json[start..]) == position - start + Token(json[position..])
    {
      position := position + 1;
    }
  }

  method ParseField(json: string, start: nat) returns (ok: bool, position: nat, key: string, value: Value)
    requires start <= |json|
    ensures start <= position <= |json|
    ensures ReadField(json[start..]) == if ok then Got(Field(key, value), json[position..]) else Failed
    ensures ok ==> start < position
  {
    hide ReadString, ReadLiteral;
    value := StringValue("");
    ok, position, key := ParseJsonString(json, start);
    if !ok { return; }
    position := SkipWs(json, position);
    if position >= |json| || json[position] != ':' { return false, position, key, value; }
    position := position + 1;
    ok, position, value := ParseJsonLiteral(json, position);
  }

  method ParseFlatJsonObject(json: string) returns (r: Parsed)
    ensures r == Parse(json)
  {
    hide SkipSpace, Members;
    var position := SkipWs(json, 0);
    assert json[0..] == json;
    if position >= |json| || json[position] != '{' { return Rejected(Malformed); }
    position := position + 1;
    position := SkipWs(json, position);
    if position < |json| && json[position] == '}' {
      position := position + 1;
      position := SkipWs(json, position);
      return if position == |json| then Fields([]) else Rejected(Malformed);
    }
    r := ParseMembers(json, position);
  }

  /** The loop over the fields. */
  method ParseMembers(json: string, start: nat) returns (r: Parsed)
    requires start <= |json|
    ensures r == Members(json[start..], [])
  {
    hide ReadField, Insert, SkipSpace, HasKey;
    var position := start;
    var fields: seq<Field> := [];
    while position < |json|
      invariant 0 <= position <= |json| && Members(json[position..], fields) == Members(json[start..], [])
    {
      var ok, key, value;
      ok, position, key, value := ParseField(json, position);
      if !ok { return Rejected(Malformed); }
      if HasKey(fields, key) { return Rejected(DuplicateField(key)); }
      fields := Insert(fields, Field(key, value));
      position := SkipWs(json, position);
      if position >= |json| { return Rejected(Malformed); }
      if json[position] == '}' {
        position := position + 1;
        position := SkipWs(json, position);
        return if position == |json| then Fields(fields) else Rejected(Malformed);
      }
      if json[position] != ',' { return Rejected(Malformed); }
      position := position + 1;
    }
    NothingReads();
    return Rejected(Malformed);
  }

  lemma NothingReads()
    ensures ReadField("") == Failed
  {}

  method JsonEscape(value: string) returns (escaped: string)
    ensures escaped == Escape(value)
  {
    escaped := "";
    for i := 0 to |value|
      invariant escaped + Escape(value[i..]) == Escape(value)
    {
      var c := Escaped(value[i]);
      assert Escape(value[i..]) == c + Escape(value[i + 1..]) by { assert value[i..][1..] == value[i + 1..]; }
      hide Escape, Escaped;
      assert escaped + (c + Escape(value[i + 1..])) == escaped + c + Escape(value[i + 1..]);
      escaped := escaped + c;
    }
  }

  /** serialize for a manifest with fields. */
  method Serialize(fields: seq<Field>) returns (out: string)
    ensures out == Print(fields)
  {
    hide Line;
    out := "{\n";
    for i := 0 to |fields|
      invariant out + Lines(fields[i..]) == "{\n" + Lines(fields)
    {
      var line := PrintLine(fields[i], i + 1 == |fields|);
      assert Lines(fields[i..]) == line + Lines(fields[i + 1..]) by {
        assert fields[i..][1..] == fields[i + 1..];
      }
      hide Lines;
      assert out + (line + Lines(fields[i + 1..])) == out + line + Lines(fields[i + 1..]);
      out := out + line;
    }
    out := out + "}\n";
  }

  method PrintLine(f: Field, last: bool) returns (line: string)
    ensures line == Line(f, last)
  {
    hide Escape;
    var key := JsonEscape(f.key);
    line := "  \"" + key + "\": ";
    assert line == "  " + Quoted(f.key) + ": ";
    if f.value.StringValue? {
      var text := JsonEscape(f.value.text);
      line := line + "\"" + text + "\"";
      assert line == "  " + Quoted(f.key) + ": " + Quoted(f.value.text);
    } else {
      line := line + f.value.text;
    }
    hide Quoted;
    if !last { line := line + ","; }
    line := line + "\n";
  }
}
