/** Printing and reading undo each other. */
module FlatJsonLaws {
  import opened CheckedArithmetic
  import opened FlatJson
  import opened TextOrder

  // ----- the map -----

  lemma {:induction false} InsertKeeps(fs: seq<Field>, f: Field)
    requires Sorted(fs) && !HasKey(fs, f.key)
    ensures Sorted(Insert(fs, f))
    ensures forall g :: g in Insert(fs, f) <==> g == f || g in fs
  {
    hide Less;
    if fs != [] {
      if Less(f.key, fs[0].key) {
        forall i | 0 < i < |fs| ensures Less(f.key, fs[i].key) {
          LessIsTransitive(f.key, fs[0].key, fs[i].key);
        }
      } else {
        LessIsTotal(f.key, fs[0].key);
        InsertKeeps(fs[1..], f);
        var r := Insert(fs[1..], f);
        forall i | 0 <= i < |r| ensures Less(fs[0].key, r[i].key) {
          assert r[i] in r;
        }
      }
    }
  }

  /** A sorted sequence is the only one for its fields: equal maps print alike. */
  lemma {:induction false} SortedIsCanonical(fs: seq<Field>, gs: seq<Field>)
    requires Sorted(fs) && Sorted(gs) && (forall f :: f in fs <==> f in gs)
    ensures fs == gs
  {
    hide Less;
    if fs != [] || gs != [] {
      assert fs != [] by { if gs != [] { assert gs[0] in fs; } }
      assert fs[0] in gs;
      FirstIsLeast(fs, gs[0]);
      FirstIsLeast(gs, fs[0]);
      if fs[0] != gs[0] {
        LessIsTransitive(fs[0].key, gs[0].key, fs[0].key);
        LessIsIrreflexive(fs[0].key);
      }
      TailFields(fs);
      TailFields(gs);
      SortedIsCanonical(fs[1..], gs[1..]);
      assert fs == [fs[0]] + fs[1..] && gs == [gs[0]] + gs[1..];
    }
  }

  lemma FirstIsLeast(fs: seq<Field>, f: Field)
    requires Sorted(fs) && f in fs
    ensures f == fs[0] || Less(fs[0].key, f.key)
  {}

  lemma TailFields(fs: seq<Field>)
    requires Sorted(fs) && fs != []
    ensures forall f :: f in fs[1..] <==> f in fs && f != fs[0]
  {
    LessIsIrreflexive(fs[0].key);
    hide Less;
    forall f | f in fs && f != fs[0] ensures f in fs[1..] {
      var i :| 0 <= i < |fs| && fs[i] == f;
      assert fs[1..][i - 1] == f;
    }
  }

  /** A new greatest key goes last. */
  lemma {:induction false} InsertGreatest(fs: seq<Field>, f: Field)
    requires Sorted(fs + [f])
    ensures Insert(fs, f) == fs + [f] && !HasKey(fs, f.key)
  {
    LessIsIrreflexive(f.key);
    if fs != [] {
      var gs := fs + [f];
      assert Less(gs[0].key, gs[|fs|].key);
      if Less(f.key, fs[0].key) {
        LessIsTransitive(f.key, fs[0].key, f.key);
      }
      assert forall i :: 0 <= i < |fs| ==> gs[i] == fs[i] && Less(gs[i].key, gs[|fs|].key);
      assert fs[1..] + [f] == gs[1..];
      hide Less;
      InsertGreatest(fs[1..], f);
    }
  }

  // ----- printing, then reading -----

  lemma EscapedReads(c: char, rest: string)
    requires c >= ' ' || c == '\n' || c == '\r' || c == '\t'
    ensures StringBody(Escaped(c) + rest) == Prepend(c, StringBody(rest))
  {
    var s := Escaped(c) + rest;
    assert s[|Escaped(c)|..] == rest;
  }

  lemma {:induction false} EscapeReads(s: string, rest: string)
    requires StringReadable(s)
    ensures StringBody(Escape(s) + "\"" + rest) == Got(s, rest)
    decreases |s|
  {
    if s == "" {
      assert (Escape(s) + "\"" + rest)[1..] == rest;
    } else {
      var u := Escape(s[1..]) + "\"" + rest;
      assert Escape(s) + "\"" + rest == Escaped(s[0]) + u;
      hide StringBody, Escaped;
      EscapedReads(s[0], u);
      EscapeReads(s[1..], rest);
      assert s == [s[0]] + s[1..];
    }
  }

  lemma QuotedReads(s: string, rest: string)
    requires StringReadable(s)
    ensures ReadString(Quoted(s) + rest) == Got(s, rest)
  {
    EscapeReads(s, rest);
    assert (Quoted(s) + rest)[1..] == Escape(s) + "\"" + rest;
    hide StringBody, Escape;
    assert SkipSpace(Quoted(s) + rest) == Quoted(s) + rest;
  }

  lemma {:induction false} TokenReads(s: string, rest: string)
    requires (forall i :: 0 <= i < |s| ==> !EndsToken(s[i])) && rest != "" && EndsToken(rest[0])
    ensures Token(s + rest) == |s|
  {
    if s != "" {
      assert (s + rest)[1..] == s[1..] + rest;
      TokenReads(s[1..], rest);
    } else {
      assert s + rest == rest;
    }
  }

  lemma SpaceReads(s: string)
    requires s != "" && !Space(s[0])
    ensures SkipSpace(" " + s) == s && SkipSpace("  " + s) == s && SkipSpace("\n" + s) == s && SkipSpace(s) == s
  {
    assert (" " + s)[1..] == s && ("  " + s)[1..] == " " + s && ("\n" + s)[1..] == s;
  }

  lemma NumberReads(text: string, rest: string)
    requires NumberReadable(text) && rest != "" && EndsToken(rest[0])
    ensures ReadLiteral(" " + text + rest) == Got(NumberValue(text), rest)
  {
    var t := text + rest;
    assert " " + text + rest == " " + t && t[..|text|] == text && t[|text|..] == rest;
    NotPrefix("true", text, rest);
    NotPrefix("false", text, rest);
    SpaceReads(t);
    TokenReads(text, rest);
    hide SkipSpace, Token, ReadLiteral;
    LiteralIsNumber(" " + t, t, |text|);
  }

  lemma LiteralIsNumber(s: string, t: string, n: nat)
    requires SkipSpace(s) == t != "" && t[0] != '"' && t[0] != '{' && t[0] != '[' && Token(t) == n > 0
    requires !("true" <= t) && !("false" <= t)
    ensures ReadLiteral(s) == Got(NumberValue(t[..n]), t[n..])
  {
    hide SkipSpace, Token, ReadString;
  }

  /** A word without separators is no prefix of a token unless it begins the token itself. */
  lemma NotPrefix(word: string, text: string, rest: string)
    requires (forall i :: 0 <= i < |word| ==> !EndsToken(word[i])) && rest != "" && EndsToken(rest[0])
    requires !(word <= text)
    ensures !(word <= text + rest)
  {
    if |word| <= |text| {
      assert word != text[..|word|] && (text + rest)[..|word|] == text[..|word|];
    } else {
      assert (text + rest)[|text|] == rest[0];
    }
  }

  lemma StringReads(text: string, rest: string)
    requires StringReadable(text)
    ensures ReadLiteral(" " + Quoted(text) + rest) == Got(StringValue(text), rest)
  {
    var t := Quoted(text) + rest;
    assert " " + Quoted(text) + rest == " " + t;
    hide StringReadable, StringBody, Escape;
    SpaceReads(t);
    QuotedReads(text, rest);
  }

  lemma BooleanReads(text: string, rest: string)
    requires text == "true" || text == "false"
    ensures ReadLiteral(" " + text + rest) == Got(BooleanValue(text), rest)
  {
    var t := text + rest;
    assert " " + text + rest == " " + t && t[|text|..] == rest;
    SpaceReads(t);
    hide SkipSpace, Token, ReadString;
  }

  lemma ShownReads(f: Field, rest: string)
    requires Readable(f) && rest != "" && EndsToken(rest[0])
    ensures ReadLiteral(" " + Shown(f.value) + rest) == Got(f.value, rest)
  {
    hide StringReadable, NumberReadable, ReadLiteral;
    match f.value
    case NumberValue(text) => NumberReads(text, rest);
    case StringValue(text) => StringReads(text, rest);
    case BooleanValue(text) => BooleanReads(text, rest);
  }

  // ----- reading starts at the first character that is no space -----

  lemma {:induction false} SkippingTwice(s: string)
    ensures SkipSpace(SkipSpace(s)) == SkipSpace(s)
  {
    if s != "" && Space(s[0]) { SkippingTwice(s[1..]); }
  }

  lemma MembersSkip(s: string, t: string, fs: seq<Field>)
    requires SkipSpace(s) == SkipSpace(t)
    ensures Members(s, fs) == Members(t, fs)
  {
    hide SkipSpace, StringBody, ReadLiteral;
    assert ReadString(s) == ReadString(t);
    assert ReadField(s) == ReadField(t);
  }

  function Separator(last: bool): string { if last then "\n" else ",\n" }

  lemma KeyReads(key: string, rest: string)
    requires StringReadable(key)
    ensures ReadString("  " + Quoted(key) + rest) == Got(key, rest)
  {
    var t := Quoted(key) + rest;
    assert "  " + Quoted(key) + rest == "  " + t;
    hide StringBody, Escape;
    SpaceReads(t);
    QuotedReads(key, rest);
  }

  lemma {:induction false} LineReads(f: Field, last: bool, rest: string)
    requires Readable(f)
    ensures ReadField(Line(f, last) + rest) == Got(f, Separator(last) + rest)
  {
    var tail := Separator(last) + rest;
    var value := " " + Shown(f.value) + tail;
    assert Line(f, last) + rest == "  " + Quoted(f.key) + (":" + value);
    assert (":" + value)[1..] == value;
    hide ReadString, ReadLiteral, Quoted, Shown;
    KeyReads(f.key, ":" + value);
    ShownReads(f, tail);
  }

  /** After the last line. */
  lemma MembersEnd(s: string, fs: seq<Field>, f: Field)
    requires ReadField(s) == Got(f, "\n}\n") && !HasKey(fs, f.key)
    ensures Members(s, fs) == Fields(Insert(fs, f))
  {
    hide ReadField;
    var t := "}\n";
    assert "\n}\n" == "\n" + t && t[1..] == "\n" && "\n"[1..] == "";
    SpaceReads(t);
  }

  /** After any other line. */
  lemma MembersMore(s: string, fs: seq<Field>, f: Field, rest: string)
    requires ReadField(s) == Got(f, ",\n" + rest) && !HasKey(fs, f.key)
    ensures Members(s, fs) == Members(rest, Insert(fs, f))
  {
    var t := ",\n" + rest;
    SpaceReads(t);
    assert t[1..] == "\n" + rest && (t[1..])[1..] == rest;
    MembersSkip(t[1..], rest, Insert(fs, f));
    hide ReadField, SkipSpace;
  }

  /** One line read, and what remains to be read. */
  lemma FirstLineRead(fs: seq<Field>, done: seq<Field>)
    requires fs != [] && AllReadable(fs) && Sorted(done + fs)
    ensures |fs| == 1 ==> Members(Lines(fs) + "}\n", done) == Fields(done + fs)
    ensures |fs| > 1 ==> Members(Lines(fs) + "}\n", done) == Members(Lines(fs[1..]) + "}\n", done + [fs[0]])
  {
    var f, last, rest := fs[0], |fs| == 1, Lines(fs[1..]) + "}\n";
    var s := Lines(fs) + "}\n";
    assert s == Line(f, last) + rest;
    assert (done + fs)[..|done| + 1] == done + [f];
    assert Readable(f) && Sorted(done + [f]) && (last ==> fs == [f] && rest == "}\n" && "\n" + rest == "\n}\n");
    hide Members, ReadField, Line, Lines, Less, Insert, HasKey, Readable, Sorted, AllReadable;
    LineReads(f, last, rest);
    InsertGreatest(done, f);
    if last {
      MembersEnd(s, done, f);
    } else {
      MembersMore(s, done, f, rest);
    }
  }

  lemma {:induction false} LinesRead(fs: seq<Field>, done: seq<Field>)
    requires fs != [] && AllReadable(fs) && Sorted(done + fs)
    ensures Members(Lines(fs) + "}\n", done) == Fields(done + fs)
    decreases |fs|
  {
    FirstLineRead(fs, done);
    if |fs| > 1 {
      assert done + fs == done + [fs[0]] + fs[1..];
      hide Members, Lines, Sorted;
      LinesRead(fs[1..], done + [fs[0]]);
    }
  }

  lemma ParseOpens(body: string)
    requires SkipSpace(body) != "" && SkipSpace(body)[0] == '"'
    ensures Parse("{\n" + body) == Members(body, [])
  {
    var s := "{\n" + body;
    assert s[1..] == "\n" + body && (s[1..])[1..] == body;
    assert SkipSpace(s) == s && SkipSpace(s[1..]) == SkipSpace(body);
    SkippingTwice(body);
    MembersSkip(SkipSpace(body), body, []);
    hide Members, SkipSpace;
  }

  lemma LinesStartWithKey(fs: seq<Field>)
    requires fs != []
    ensures SkipSpace(Lines(fs) + "}\n") != "" && SkipSpace(Lines(fs) + "}\n")[0] == '"'
  {
    var s := Lines(fs) + "}\n";
    assert s[0] == ' ' && s[1] == ' ' && s[2] == '"' by { LineStart(fs[0], |fs| == 1); }
    hide Lines;
    assert s == "  " + s[2..];
    SpaceReads(s[2..]);
  }

  lemma LineStart(f: Field, last: bool)
    ensures |Line(f, last)| > 2 && Line(f, last)[0] == ' ' && Line(f, last)[1] == ' ' && Line(f, last)[2] == '"'
  {
    hide Shown, Escape;
  }

  /** Every printable map comes back as it was. */
  lemma {:induction false} PrintedIsRead(fs: seq<Field>)
    requires fs != [] && Sorted(fs) && AllReadable(fs)
    ensures Parse(Print(fs)) == Fields(fs)
  {
    var body := Lines(fs) + "}\n";
    assert Print(fs) == "{\n" + body;
    assert [] + fs == fs;
    hide Parse, Members, Lines, SkipSpace, Sorted, AllReadable;
    LinesStartWithKey(fs);
    ParseOpens(body);
    LinesRead(fs, []);
  }

  // ----- reading, then printing -----

  lemma {:induction false} BodyIsReadable(s: string)
    requires StringBody(s).Got?
    ensures StringReadable(StringBody(s).value)
    decreases |s|
  {
    if s[0] != '"' {
      BodyIsReadable(if s[0] == '\\' then s[2..] else s[1..]);
    }
  }

  lemma {:induction false} TokenHasNoEnd(s: string)
    ensures forall i :: 0 <= i < Token(s) ==> !EndsToken(s[i])
  {
    if s != "" && !EndsToken(s[0]) { TokenHasNoEnd(s[1..]); }
  }

  lemma LiteralIsReadable(s: string)
    requires ReadLiteral(s).Got?
    ensures Readable(Field("", ReadLiteral(s).value))
  {
    var t := SkipSpace(s);
    SkippingTwice(s);
    hide SkipSpace, Token;
    if t[0] == '"' {
      BodyIsReadable(t[1..]);
    } else {
      TokenHasNoEnd(t);
      if !("true" <= t) && !("false" <= t) {
        assert t[..Token(t)] <= t;
      }
    }
  }

  lemma FieldIsReadable(s: string)
    requires ReadField(s).Got?
    ensures Readable(ReadField(s).value)
  {
    var key := ReadString(s);
    BodyIsReadable(SkipSpace(s)[1..]);
    var t := SkipSpace(key.rest);
    LiteralIsReadable(t[1..]);
  }

  lemma {:induction false} MembersAreReadable(s: string, fs: seq<Field>)
    requires Members(s, fs).Fields? && Sorted(fs) && AllReadable(fs)
    ensures var gs := Members(s, fs).fields; gs != [] && Sorted(gs) && AllReadable(gs)
    decreases |s|
  {
    var r := ReadField(s);
    FieldIsReadable(s);
    hide ReadField, Less, Readable;
    InsertKeeps(fs, r.value);
    var gs := Insert(fs, r.value);
    forall i | 0 <= i < |gs| ensures Readable(gs[i]) {
      assert gs[i] in gs;
    }
    assert r.value in gs;
    var t := SkipSpace(r.rest);
    if t[0] == ',' {
      MembersAreReadable(t[1..], gs);
    }
  }

  /** Whatever the reader accepts, it gives back a sorted map it could have printed. */
  lemma ReadIsPrintable(json: string)
    requires Parse(json).Fields?
    ensures Sorted(Parse(json).fields) && AllReadable(Parse(json).fields)
  {
    var t := SkipSpace(SkipSpace(json)[1..]);
    hide SkipSpace;
    if t == "" || t[0] != '}' {
      MembersAreReadable(t, []);
    }
  }

  /** A non-empty map survives printing and reading if and only if its texts are ones the reader can produce. */
  lemma {:induction false} RoundTripExactly(fs: seq<Field>)
    requires fs != [] && Sorted(fs)
    ensures Parse(Print(fs)) == Fields(fs) <==> AllReadable(fs)
  {
    hide Parse, Print, Sorted, AllReadable;
    if AllReadable(fs) {
      PrintedIsRead(fs);
    }
    if Parse(Print(fs)) == Fields(fs) {
      ReadIsPrintable(Print(fs));
    }
  }

  /** For every accepted text with a field: printing is canonical and idempotent. */
  lemma {:induction false} PrintingIsCanonical(json: string, other: string)
    requires Parse(json).Fields? && Parse(json).fields != []
    ensures Parse(Print(Parse(json).fields)) == Parse(json)
    ensures Parse(other).Fields? && (forall f :: f in Parse(other).fields <==> f in Parse(json).fields) ==>
      Print(Parse(other).fields) == Print(Parse(json).fields)
  {
    hide Parse, Print, Sorted, AllReadable;
    ReadIsPrintable(json);
    PrintedIsRead(Parse(json).fields);
    if Parse(other).Fields? && (forall f :: f in Parse(other).fields <==> f in Parse(json).fields) {
      ReadIsPrintable(other);
      SortedIsCanonical(Parse(other).fields, Parse(json).fields);
    }
  }

  /** A control character cannot be read back: the printer leaves it raw, the reader refuses it. */
  lemma RawControlIsRefused()
    ensures Sorted([Field("\U{07}", NumberValue("1"))])
    ensures Parse(Print([Field("\U{07}", NumberValue("1"))])) != Fields([Field("\U{07}", NumberValue("1"))])
  {
    var f := Field("\U{07}", NumberValue("1"));
    assert !StringReadable(f.key) by { assert f.key[0] == '\U{07}'; }
    assert !AllReadable([f]) by { assert [f][0] == f; }
    RoundTripExactly([f]);
  }
}
