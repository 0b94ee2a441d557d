/** The canonical JSON printer (src/actl/domain/audit/canonical.py), and a reader
that undoes it.
*/
module CanonicalJson {
  import opened Digests
  import opened CanonicalNumber
  import opened CanonicalKeys

  /** A value handed to the printer.  A mapping is its list of members in
      insertion order; anything that is no JSON value is Unserialisable. */
  datatype Json =
    | Null
    | Bool(b: bool)
    | Int(i: int)
    | Number(x: Float)
    | Str(s: string)
    | Arr(items: seq<Json>)
    | Obj(members: seq<Member>)
    | Unserialisable

  datatype Member = Member(key: string, value: Json)

  predicate UniqueKeys(members: seq<Member>) {
    forall i, j :: 0 <= i < j < |members| ==> members[i].key != members[j].key
  }

  /** What the printer accepts: no NaN, no infinity, nothing but JSON values. */
  predicate Encodable(v: Json) {
    match v
    case Number(x) => ValidFloat(x) && (x.Zero? || x.Finite?)
    case Arr(items) => forall i :: 0 <= i < |items| ==> Encodable(items[i])
    case Obj(members) => UniqueKeys(members) && forall i :: 0 <= i < |members| ==> Encodable(members[i].value)
    case Unserialisable => false
    case _ => true
  }

  /******* Strings *******/

  const BACKSPACE := 8 as char
  const FORM_FEED := 12 as char

  function HexDigit(n: nat): char
    requires n < 16
  {
    if n < 10 then '0' + n as char else 'a' + (n - 10) as char
  }

  function EncodeChar(c: char): string {
    if c == '"' then "\\\""
    else if c == '\\' then "\\\\"
    else if c == BACKSPACE then "\\b"
    else if c == FORM_FEED then "\\f"
    else if c == '\n' then "\\n"
    else if c == '\r' then "\\r"
    else if c == '\t' then "\\t"
    else if c as int < 0x20 then "\\u00" + [HexDigit(c as int / 16), HexDigit(c as int % 16)]
    else [c]
  }

  /** `"".join(parts)` */
  function Join(parts: seq<string>): string {
    if parts == [] then "" else Join(parts[..|parts| - 1]) + parts[|parts| - 1]
  }

  function CharParts(s: string): (parts: seq<string>)
    ensures |parts| == |s| && forall i :: 0 <= i < |s| ==> parts[i] == EncodeChar(s[i])
  {
    seq(|s|, i requires 0 <= i < |s| => EncodeChar(s[i]))
  }

  function EncodeChars(s: string): string {
    Join(CharParts(s))
  }

  function QuoteString(s: string): string {
    "\"" + EncodeChars(s) + "\""
  }

  /** `_encode_string` */
  method EncodeString(s: string) returns (text: string)
    ensures text == QuoteString(s)
  {
    var out := [];
    for i := 0 to |s|
      invariant out == seq(i, j requires 0 <= j < i => EncodeChar(s[j]))
    {
      out := out + [EncodeChar(s[i])];
    }
    text := "\"" + Join(out) + "\"";
  }

  /******* Values *******/

  function InsertMember(m: Member, sorted: seq<Member>): seq<Member> {
    if sorted == [] || KeyLess(m.key, sorted[0].key) then [m] + sorted
    else [sorted[0]] + InsertMember(m, sorted[1..])
  }

  /** `sorted(value.items(), key=...)` */
  function SortMembers(members: seq<Member>): (sorted: seq<Member>)
    ensures forall m :: m in sorted <==> m in members
  {
    if members == [] then []
    else
      InsertKeepsMembers(members[|members| - 1], SortMembers(members[..|members| - 1]));
      InsertMember(members[|members| - 1], SortMembers(members[..|members| - 1]))
  }

  lemma {:induction false} InsertKeepsMembers(m: Member, sorted: seq<Member>)
    ensures forall x :: x in InsertMember(m, sorted) <==> x == m || x in sorted
  {
    if sorted != [] && !KeyLess(m.key, sorted[0].key) {
      InsertKeepsMembers(m, sorted[1..]);
      assert sorted == [sorted[0]] + sorted[1..];
    }
  }

  /** Parts of a value that is being encoded. */
  ghost predicate ItemsBelow(context: Json, items: seq<Json>) {
    forall i :: 0 <= i < |items| ==> items[i] < context && Encodable(items[i])
  }

  ghost predicate MembersBelow(context: Json, members: seq<Member>) {
    forall i :: 0 <= i < |members| ==> members[i].value < context && Encodable(members[i].value)
  }

  lemma SortedBelow(context: Json, members: seq<Member>)
    requires MembersBelow(context, members)
    ensures MembersBelow(context, SortMembers(members))
  {
    forall i | 0 <= i < |SortMembers(members)|
      ensures SortMembers(members)[i].value < context && Encodable(SortMembers(members)[i].value)
    {
      assert SortMembers(members)[i] in members;
    }
  }

  /** `_encode` */
  function Encode(v: Json): string
    requires Encodable(v)
    decreases v
  {
    match v
    case Null => "null"
    case Bool(b) => if b then "true" else "false"
    case Str(s) => QuoteString(s)
    case Int(i) => IntText(i)
    case Number(x) => EncodeNumber(x).value
    case Obj(members) => SortedBelow(v, members); "{" + (EncodeMembers(v, SortMembers(members)) + "}")
    case Arr(items) => "[" + (EncodeItems(v, items) + "]")
  }

  function EncodeItems(context: Json, items: seq<Json>): string
    requires ItemsBelow(context, items)
    decreases context, |items|
  {
    if items == [] then ""
    else if |items| == 1 then Encode(items[0])
    else Encode(items[0]) + ("," + EncodeItems(context, items[1..]))
  }

  function EncodeMembers(context: Json, members: seq<Member>): string
    requires MembersBelow(context, members)
    decreases context, |members|
  {
    if members == [] then ""
    else
      var first := QuoteString(members[0].key) + (":" + Encode(members[0].value));
      if |members| == 1 then first
      else first + ("," + EncodeMembers(context, members[1..]))
  }

  /******* The reader *******/

  /** What a text says: numbers in normal form, members in the order written. */
  datatype Value =
    | VNull
    | VBool(b: bool)
    | VNumber(d: Decimal)
    | VString(s: string)
    | VArray(items: seq<Value>)
    | VObject(members: seq<(string, Value)>)

  function HexValue(c: char): Option<nat> {
    if '0' <= c <= '9' then Some((c as int - '0' as int) as nat)
    else if 'a' <= c <= 'f' then Some((c as int - 'a' as int + 10) as nat)
    else None
  }

  /** One character of a string body, escaped or not. */
  function ReadChar(s: string): (r: Option<(char, string)>)
    ensures r.Some? ==> |r.value.1| < |s|
  {
    if s == [] then None
    else if s[0] != '\\' then Some((s[0], s[1..]))
    else if |s| < 2 then None
    else if s[1] == '"' then Some(('"', s[2..]))
    else if s[1] == '\\' then Some(('\\', s[2..]))
    else if s[1] == 'b' then Some((BACKSPACE, s[2..]))
    else if s[1] == 'f' then Some((FORM_FEED, s[2..]))
    else if s[1] == 'n' then Some(('\n', s[2..]))
    else if s[1] == 'r' then Some(('\r', s[2..]))
    else if s[1] == 't' then Some(('\t', s[2..]))
    else if s[1] == 'u' && |s| >= 6 && s[2] == '0' && s[3] == '0' && HexValue(s[4]).Some? && HexValue(s[5]).Some?
    then Some(((16 * HexValue(s[4]).value + HexValue(s[5]).value) as char, s[6..]))
    else None
  }

  /** A string body up to its closing quote. */
  function ReadChars(s: string): (r: Option<(string, string)>)
    ensures r.Some? ==> |r.value.1| < |s|
    decreases |s|
  {
    if s == [] then None
    else if s[0] == '"' then Some(("", s[1..]))
    else
      var c := ReadChar(s);
      if c.None? then None
      else
        var rest := ReadChars(c.value.1);
        if rest.None? then None else Some(([c.value.0] + rest.value.0, rest.value.1))
  }

  function ReadValue(s: string): (r: Option<(Value, string)>)
    ensures r.Some? ==> |r.value.1| < |s|
    decreases |s|, 0
  {
    if s == [] then None
    else if s[0] == 'n' then (if "null" <= s then Some((VNull, s[4..])) else None)
    else if s[0] == 't' then (if "true" <= s then Some((VBool(true), s[4..])) else None)
    else if s[0] == 'f' then (if "false" <= s then Some((VBool(false), s[5..])) else None)
    else if s[0] == '"' then
      var body := ReadChars(s[1..]);
      if body.None? then None else Some((VString(body.value.0), body.value.1))
    else if s[0] == '[' then
      if StartsWith(s[1..], ']') then Some((VArray([]), s[2..]))
      else
        var items := ReadItems(s[1..]);
        if items.None? then None else Some((VArray(items.value.0), items.value.1))
    else if s[0] == '{' then
      if StartsWith(s[1..], '}') then Some((VObject([]), s[2..]))
      else
        var members := ReadMembers(s[1..]);
        if members.None? then None else Some((VObject(members.value.0), members.value.1))
    else
      var number := ParseNumber(s);
      if number.None? then None else Some((VNumber(ValueOf(number.value.0)), number.value.1))
  }

  /** One or more items, up to the closing bracket. */
  function ReadItems(s: string): (r: Option<(seq<Value>, string)>)
    ensures r.Some? ==> |r.value.1| < |s|
    decreases |s|, 1
  {
    var first := ReadValue(s);
    if first.None? || first.value.1 == [] then None
    else
      var (v, after) := first.value;
      if after[0] == ']' then Some(([v], after[1..]))
      else if after[0] != ',' then None
      else
        var more := ReadItems(after[1..]);
        if more.None? then None else Some(([v] + more.value.0, more.value.1))
  }

  /** One or more members, up to the closing brace. */
  function ReadMembers(s: string): (r: Option<(seq<(string, Value)>, string)>)
    ensures r.Some? ==> |r.value.1| < |s|
    decreases |s|, 1
  {
    var first := ReadMember(s);
    if first.None? || first.value.1 == [] then None
    else
      var (m, after) := first.value;
      if after[0] == '}' then Some(([m], after[1..]))
      else if after[0] != ',' then None
      else
        var more := ReadMembers(after[1..]);
        if more.None? then None else Some(([m] + more.value.0, more.value.1))
  }

  function ReadMember(s: string): (r: Option<((string, Value), string)>)
    ensures r.Some? ==> |r.value.1| < |s|
    decreases |s|, 0
  {
    if !StartsWith(s, '"') then None
    else
      var key := ReadChars(s[1..]);
      if key.None? || !StartsWith(key.value.1, ':') then None
      else
        var value := ReadValue(key.value.1[1..]);
        if value.None? then None else Some(((key.value.0, value.value.0), value.value.1))
  }

  /******* What a value says *******/

  /** The same value with numbers in normal form and members in key order. */
  function Canon(v: Json): Value
    requires Encodable(v)
    decreases v
  {
    match v
    case Null => VNull
    case Bool(b) => VBool(b)
    case Str(s) => VString(s)
    case Int(i) => VNumber(DecimalOfInt(i))
    case Number(x) => VNumber(DecimalOf(x))
    case Obj(members) => SortedBelow(v, members); VObject(CanonMembers(v, SortMembers(members)))
    case Arr(items) => VArray(CanonItems(v, items))
  }

  function CanonItems(context: Json, items: seq<Json>): seq<Value>
    requires ItemsBelow(context, items)
    decreases context, |items|
  {
    if items == [] then [] else [Canon(items[0])] + CanonItems(context, items[1..])
  }

  function CanonMembers(context: Json, members: seq<Member>): seq<(string, Value)>
    requires MembersBelow(context, members)
    decreases context, |members|
  {
    if members == [] then []
    else [(members[0].key, Canon(members[0].value))] + CanonMembers(context, members[1..])
  }

  /******* What the text is *******/

  /** RFC 8785, section 3.2.2.2: the letters of the seven short escapes. */
  const SHORT_ESCAPES: map<int, char> := map[34 := '"', 92 := '\\', 8 := 'b', 9 := 't', 10 := 'n', 12 := 'f', 13 := 'r']

  /** A short escape where there is one, a lower-case `u00xx` for any other control
      character, and every other character as it is. */
  lemma CharText(c: char)
    ensures var n, text := c as int, EncodeChar(c);
      if n in SHORT_ESCAPES then text == ['\\', SHORT_ESCAPES[n]]
      else if n < 32 then
        |text| == 6 && text[..5] == "\\u00" + ["01"[n / 16]] && text[5] == "0123456789abcdef"[n % 16]
      else text == [c]
  {
  }

  /** Texts with a comma between neighbours. */
  ghost function Commas(texts: seq<string>): string {
    if texts == [] then "" else if |texts| == 1 then texts[0] else texts[0] + ("," + Commas(texts[1..]))
  }

  ghost function ItemTexts(context: Json, items: seq<Json>): seq<string>
    requires ItemsBelow(context, items)
  {
    seq(|items|, i requires 0 <= i < |items| => Encode(items[i]))
  }

  ghost function MemberTexts(context: Json, members: seq<Member>): seq<string>
    requires MembersBelow(context, members)
  {
    seq(|members|, i requires 0 <= i < |members| => QuoteString(members[i].key) + (":" + Encode(members[i].value)))
  }

  lemma {:induction false} ItemsJoined(context: Json, items: seq<Json>)
    requires ItemsBelow(context, items)
    ensures EncodeItems(context, items) == Commas(ItemTexts(context, items))
    decreases |items|
  {
    if |items| > 1 {
      ItemsJoined(context, items[1..]);
      assert ItemTexts(context, items)[1..] == ItemTexts(context, items[1..]);
    }
  }

  lemma {:induction false} MembersJoined(context: Json, members: seq<Member>)
    requires MembersBelow(context, members)
    ensures EncodeMembers(context, members) == Commas(MemberTexts(context, members))
    decreases |members|
  {
    if |members| > 1 {
      MembersJoined(context, members[1..]);
      assert MemberTexts(context, members)[1..] == MemberTexts(context, members[1..]);
    }
  }

  /** Every value but a number and a string, without a space anywhere. */
  lemma ValueText(v: Json)
    requires Encodable(v)
    ensures v.Null? ==> Encode(v) == "null"
    ensures v.Bool? ==> Encode(v) == if v.b then "true" else "false"
    ensures v.Arr? ==> Encode(v) == "[" + (Commas(ItemTexts(v, v.items)) + "]")
    ensures v.Obj? ==>
      MembersBelow(v, SortMembers(v.members))
      && Encode(v) == "{" + (Commas(MemberTexts(v, SortMembers(v.members))) + "}")
  {
    if v.Arr? { ItemsJoined(v, v.items); }
    if v.Obj? {
      SortedBelow(v, v.members);
      MembersJoined(v, SortMembers(v.members));
    }
  }

  /******* Reading strings back *******/

  lemma ReadCharReads(c: char, t: string)
    ensures ReadChar(EncodeChar(c) + t) == Some((c, t))
    ensures EncodeChar(c)[0] != '"'
  {
    var s := EncodeChar(c) + t;
    assert s[|EncodeChar(c)|..] == t;
  }

  lemma {:induction false} JoinCons(head: string, parts: seq<string>)
    ensures Join([head] + parts) == head + Join(parts)
    decreases |parts|
  {
    if parts == [] {
      assert [head][..0] == [];
      assert [head] + parts == [head];
    } else {
      var front, last := parts[..|parts| - 1], parts[|parts| - 1];
      JoinCons(head, front);
      assert ([head] + parts)[..|parts|] == [head] + front;
      Assoc(head, Join(front), last);
    }
  }

  lemma EncodeCharsCons(c: char, s: string)
    ensures EncodeChars([c] + s) == EncodeChar(c) + EncodeChars(s)
  {
    JoinCons(EncodeChar(c), CharParts(s));
    CharPartsCons(c, s);
  }

  lemma CharPartsCons(c: char, s: string)
    ensures CharParts([c] + s) == [EncodeChar(c)] + CharParts(s)
  {
    var all, parts := CharParts([c] + s), CharParts(s);
    forall i | 0 <= i < |all| ensures all[i] == ([EncodeChar(c)] + parts)[i] {
      assert i > 0 ==> ([c] + s)[i] == s[i - 1];
    }
  }

  lemma ReadCharsStep(head: string, c: char, text: string, s: string, rest: string)
    requires head != [] && head[0] != '"' && ReadChar(head + text) == Some((c, text))
    requires ReadChars(text) == Some((s, rest))
    ensures ReadChars(head + text) == Some(([c] + s, rest))
  {
    assert (head + text)[0] == head[0];
  }

  /** A printed string body is read back. */
  lemma {:induction false} StringRoundTrip(s: string, rest: string)
    ensures ReadChars(EncodeChars(s) + ("\"" + rest)) == Some((s, rest))
  {
    var tail := "\"" + rest;
    if s == [] {
      assert EncodeChars(s) + tail == tail;
      assert tail[1..] == rest;
    } else {
      var c, more := s[0], s[1..];
      var text := EncodeChars(more) + tail;
      StringRoundTrip(more, rest);
      EncodeCharsCons(c, more);
      assert s == [c] + more;
      ReadCharReads(c, text);
      ReadCharsStep(EncodeChar(c), c, text, more, rest);
      Assoc(EncodeChar(c), EncodeChars(more), tail);
    }
  }

  /******* Reading values back *******/

  lemma NumberStarts(s: string)
    requires ParseNumber(s).Some?
    ensures s != [] && (s[0] == '-' || IsDigit(s[0]))
  {
  }

  lemma ReadNumber(s: string, p: Pieces, rest: string)
    requires ParseNumber(s) == Some((p, rest))
    ensures ReadValue(s) == Some((VNumber(ValueOf(p)), rest))
  {
    NumberStarts(s);
  }

  lemma ReadQuoted(s: string, rest: string)
    ensures ReadValue(QuoteString(s) + rest) == Some((VString(s), rest))
  {
    StringRoundTrip(s, rest);
    assert (QuoteString(s) + rest)[1..] == EncodeChars(s) + ("\"" + rest);
  }

  lemma ReadLiteral(word: string, rest: string)
    requires word == "null" || word == "true" || word == "false"
    ensures ReadValue(word + rest) ==
      Some((if word == "null" then VNull else VBool(word == "true"), rest))
  {
    var s := word + rest;
    assert s[|word|..] == rest && word <= s && s[0] == word[0];
  }

  lemma FirstOfNumber(text: string, rest: string)
    requires ParseNumber(text + rest).Some? && ParseNumber(text + rest).value.1 == rest
    ensures text != "" && text[0] != ']' && text[0] != '}'
  {
    NumberStarts(text + rest);
    assert (text + rest)[0] == text[0];
  }

  lemma ReadArrayText(body: string, rest: string, items: seq<Value>)
    requires body == "" ==> items == []
    requires body != "" ==> body[0] != ']' && ReadItems(body + ("]" + rest)) == Some((items, rest))
    ensures ReadValue("[" + (body + "]") + rest) == Some((VArray(items), rest))
  {
    var s := "[" + (body + "]") + rest;
    assert s[1..] == body + ("]" + rest);
    assert body == "" ==> s[2..] == rest;
  }

  lemma ReadObjectText(body: string, rest: string, members: seq<(string, Value)>)
    requires body == "" ==> members == []
    requires body != "" ==> body[0] != '}' && ReadMembers(body + ("}" + rest)) == Some((members, rest))
    ensures ReadValue("{" + (body + "}") + rest) == Some((VObject(members), rest))
  {
    var s := "{" + (body + "}") + rest;
    assert s[1..] == body + ("}" + rest);
    assert body == "" ==> s[2..] == rest;
  }

  /** The reader undoes the printer, in any context. */
  lemma {:induction false} ValueRoundTrip(v: Json, rest: string)
    requires Encodable(v) && Stops(rest)
    ensures ReadValue(Encode(v) + rest) == Some((Canon(v), rest))
    ensures Encode(v) != "" && Encode(v)[0] != ']' && Encode(v)[0] != '}'
    decreases v, 1, 0
  {
    match v
    case Arr(items) =>
      if items != [] { ItemsRoundTrip(v, items, rest); }
      ReadArrayText(EncodeItems(v, items), rest, CanonItems(v, items));
    case Obj(members) =>
      SortedBelow(v, members);
      var sorted := SortMembers(members);
      if sorted != [] {
        MembersRoundTrip(v, sorted, rest);
        assert EncodeMembers(v, sorted)[0] == '"';
      }
      ReadObjectText(EncodeMembers(v, sorted), rest, CanonMembers(v, sorted));
    case _ =>
      ScalarRoundTrip(v, rest);
  }

  lemma ScalarRoundTrip(v: Json, rest: string)
    requires Encodable(v) && !v.Arr? && !v.Obj? && Stops(rest)
    ensures ReadValue(Encode(v) + rest) == Some((Canon(v), rest))
    ensures Encode(v) != "" && Encode(v)[0] != ']' && Encode(v)[0] != '}'
  {
    match v
    case Null => ReadLiteral("null", rest);
    case Bool(b) => ReadLiteral(if b then "true" else "false", rest);
    case Str(s) => ReadQuoted(s, rest);
    case Int(i) =>
      IntRoundTrip(i, rest);
      ReadNumber(IntText(i) + rest, Pieces(i < 0, NatText(if i < 0 then -i else i), "", None), rest);
      FirstOfNumber(IntText(i), rest);
    case Number(x) =>
      var p := NumberRoundTrip(x, rest);
      ReadNumber(EncodeNumber(x).value + rest, p, rest);
      FirstOfNumber(EncodeNumber(x).value, rest);
  }

  lemma ReadLastItem(text: string, v: Value, rest: string)
    requires ReadValue(text + ("]" + rest)) == Some((v, "]" + rest))
    ensures ReadItems(text + ("]" + rest)) == Some(([v], rest))
  {
    assert ("]" + rest)[1..] == rest;
  }

  lemma ReadItemsStep(text: string, v: Value, more: string, vs: seq<Value>, rest: string)
    requires ReadValue(text + ("," + more)) == Some((v, "," + more)) && ReadItems(more) == Some((vs, rest))
    ensures ReadItems(text + ("," + more)) == Some(([v] + vs, rest))
  {
    assert ("," + more)[1..] == more;
  }

  lemma {:induction false} ItemsRoundTrip(context: Json, items: seq<Json>, rest: string)
    requires items != [] && ItemsBelow(context, items)
    ensures ReadItems(EncodeItems(context, items) + ("]" + rest)) == Some((CanonItems(context, items), rest))
    ensures EncodeItems(context, items) != "" && EncodeItems(context, items)[0] != ']'
    decreases context, 0, |items|
  {
    var text, v := Encode(items[0]), Canon(items[0]);
    if |items| == 1 {
      ValueRoundTrip(items[0], "]" + rest);
      ReadLastItem(text, v, rest);
      assert CanonItems(context, items) == [v] + CanonItems(context, items[1..]) == [v];
    } else {
      var body, tail := EncodeItems(context, items[1..]), "]" + rest;
      ItemsRoundTrip(context, items[1..], rest);
      ValueRoundTrip(items[0], "," + (body + tail));
      ReadItemsStep(text, v, body + tail, CanonItems(context, items[1..]), rest);
      Assoc(text, "," + body, tail);
      Assoc(",", body, tail);
    }
  }

  lemma QuotedThen(key: string, text: string, rest: string)
    ensures (QuoteString(key) + text + rest)[0] == '"'
    ensures (QuoteString(key) + text + rest)[1..] == EncodeChars(key) + ("\"" + (text + rest))
  {
  }

  lemma ReadMemberText(key: string, text: string, value: Value, rest: string)
    requires ReadValue(text + rest) == Some((value, rest))
    ensures ReadMember(QuoteString(key) + (":" + text) + rest) == Some(((key, value), rest))
  {
    var after := ":" + (text + rest);
    var s := QuoteString(key) + (":" + text) + rest;
    QuotedThen(key, ":" + text, rest);
    Assoc(":", text, rest);
    StringRoundTrip(key, after);
    assert after[1..] == text + rest;
  }

  lemma ReadLastMember(text: string, m: (string, Value), rest: string)
    requires ReadMember(text + ("}" + rest)) == Some((m, "}" + rest))
    ensures ReadMembers(text + ("}" + rest)) == Some(([m], rest))
  {
    assert ("}" + rest)[1..] == rest;
  }

  lemma ReadMembersStep(text: string, m: (string, Value), more: string, ms: seq<(string, Value)>, rest: string)
    requires ReadMember(text + ("," + more)) == Some((m, "," + more)) && ReadMembers(more) == Some((ms, rest))
    ensures ReadMembers(text + ("," + more)) == Some(([m] + ms, rest))
  {
    assert ("," + more)[1..] == more;
  }

  lemma {:induction false} MembersRoundTrip(context: Json, members: seq<Member>, rest: string)
    requires members != [] && MembersBelow(context, members)
    ensures ReadMembers(EncodeMembers(context, members) + ("}" + rest)) == Some((CanonMembers(context, members), rest))
    decreases context, 0, |members|
  {
    var m := members[0];
    var text := QuoteString(m.key) + (":" + Encode(m.value));
    if |members| == 1 {
      ValueRoundTrip(m.value, "}" + rest);
      ReadMemberText(m.key, Encode(m.value), Canon(m.value), "}" + rest);
      ReadLastMember(text, (m.key, Canon(m.value)), rest);
      assert CanonMembers(context, members) == [(m.key, Canon(m.value))] + CanonMembers(context, members[1..]);
      assert CanonMembers(context, members) == [(m.key, Canon(m.value))];
    } else {
      var body, tail := EncodeMembers(context, members[1..]), "}" + rest;
      MembersRoundTrip(context, members[1..], rest);
      ValueRoundTrip(m.value, "," + (body + tail));
      ReadMemberText(m.key, Encode(m.value), Canon(m.value), "," + (body + tail));
      ReadMembersStep(text, (m.key, Canon(m.value)), body + tail, CanonMembers(context, members[1..]), rest);
      Assoc(text, "," + body, tail);
      Assoc(",", body, tail);
    }
  }

  /** A text determines what its value says: equal texts, equal values, up to
      numeric equality and member order. */
  lemma TextDetermines(v: Json, w: Json)
    requires Encodable(v) && Encodable(w) && Encode(v) == Encode(w)
    ensures Canon(v) == Canon(w)
  {
    ValueRoundTrip(v, "");
    ValueRoundTrip(w, "");
  }

  /******* Member order *******/

  ghost predicate HasKey(members: seq<Member>, k: string) {
    exists i :: 0 <= i < |members| && members[i].key == k
  }

  ghost function ValueAt(members: seq<Member>, k: string): (v: Json)
    requires HasKey(members, k)
    ensures Member(k, v) in members
  {
    var i :| 0 <= i < |members| && members[i].key == k;
    assert members[i] == Member(k, members[i].value);
    members[i].value
  }

  /** The same value written with its members in any order, at any depth. */
  ghost predicate Reordered(v: Json, w: Json)
    decreases v
  {
    match v
    case Arr(items) => w.Arr? && |items| == |w.items| && forall i :: 0 <= i < |items| ==> Reordered(items[i], w.items[i])
    case Obj(members) =>
      && w.Obj?
      && (forall k :: HasKey(members, k) <==> HasKey(w.members, k))
      && (forall i :: 0 <= i < |members| ==>
           HasKey(w.members, members[i].key) && Reordered(members[i].value, ValueAt(w.members, members[i].key)))
    case _ => v == w
  }

  function Keys(members: seq<Member>): seq<string> {
    seq(|members|, i requires 0 <= i < |members| => members[i].key)
  }

  ghost predicate AllAbove(key: string, members: seq<Member>) {
    forall m :: m in members ==> KeyLess(key, m.key)
  }

  ghost predicate InOrder(members: seq<Member>) {
    members == [] || (AllAbove(members[0].key, members[1..]) && InOrder(members[1..]))
  }

  lemma AscendingCons(key: string, rest: seq<string>)
    requires Ascending(rest) && forall i :: 0 <= i < |rest| ==> KeyLess(key, rest[i])
    ensures Ascending([key] + rest)
  {
    var keys := [key] + rest;
    forall i, j | 0 <= i < j < |keys| ensures KeyLess(keys[i], keys[j]) {
      if i > 0 { assert KeyLess(rest[i - 1], rest[j - 1]); }
    }
  }

  lemma {:induction false} InOrderAscends(members: seq<Member>)
    requires InOrder(members)
    ensures Ascending(Keys(members))
  {
    if members != [] {
      var rest := members[1..];
      InOrderAscends(rest);
      forall i | 0 <= i < |Keys(rest)| ensures KeyLess(members[0].key, Keys(rest)[i]) { assert rest[i] in rest; }
      AscendingCons(members[0].key, Keys(rest));
      assert Keys(members) == [members[0].key] + Keys(rest);
    }
  }

  lemma {:induction false} InsertInOrder(m: Member, sorted: seq<Member>)
    requires InOrder(sorted) && forall x :: x in sorted ==> x.key != m.key
    ensures InOrder(InsertMember(m, sorted))
  {
    var after := InsertMember(m, sorted);
    if sorted == [] {
      assert after[1..] == [];
    } else if KeyLess(m.key, sorted[0].key) {
      assert after[1..] == sorted;
      forall x | x in sorted ensures KeyLess(m.key, x.key) {
        if x != sorted[0] {
          assert x in sorted[1..];
          LexTransitive(Utf16Be(m.key), Utf16Be(sorted[0].key), Utf16Be(x.key));
        }
      }
    } else {
      assert sorted[0] in sorted;
      KeyOrder(m.key, sorted[0].key);
      assert forall x :: x in sorted[1..] ==> x in sorted;
      InsertInOrder(m, sorted[1..]);
      InsertKeepsMembers(m, sorted[1..]);
      assert after[1..] == InsertMember(m, sorted[1..]);
    }
  }

  lemma {:induction false} SortInOrder(members: seq<Member>)
    requires UniqueKeys(members)
    ensures InOrder(SortMembers(members))
  {
    if members != [] {
      var front, last := members[..|members| - 1], members[|members| - 1];
      SortInOrder(front);
      forall x | x in SortMembers(front) ensures x.key != last.key {
        var i :| 0 <= i < |front| && front[i] == x;
      }
      InsertInOrder(last, SortMembers(front));
    }
  }

  /** The printed members are the given ones, by ascending key. */
  lemma SortedIsAscending(members: seq<Member>)
    requires UniqueKeys(members)
    ensures forall m :: m in SortMembers(members) <==> m in members
    ensures Ascending(Keys(SortMembers(members)))
  {
    SortInOrder(members);
    InOrderAscends(SortMembers(members));
  }

  lemma UniqueMember(members: seq<Member>, x: Member, y: Member)
    requires UniqueKeys(members) && x in members && y in members && x.key == y.key
    ensures x == y
  {
    var i :| 0 <= i < |members| && members[i] == x;
    var j :| 0 <= j < |members| && members[j] == y;
  }

  lemma KeyListed(members: seq<Member>, k: string)
    ensures k in Keys(members) <==> HasKey(members, k)
  {
    if HasKey(members, k) {
      var i :| 0 <= i < |members| && members[i].key == k;
      assert Keys(members)[i] == k;
    }
  }

  lemma SortedKeys(members: seq<Member>, k: string)
    ensures k in Keys(SortMembers(members)) <==> HasKey(members, k)
  {
    var sorted := SortMembers(members);
    KeyListed(sorted, k);
    if HasKey(sorted, k) {
      var i :| 0 <= i < |sorted| && sorted[i].key == k;
      assert sorted[i] in members;
    }
    if HasKey(members, k) {
      var i :| 0 <= i < |members| && members[i].key == k;
      assert members[i] in sorted;
    }
  }

  /** Two lists with the same keys sort to the same keys. */
  lemma SameSortedKeys(a: seq<Member>, b: seq<Member>)
    requires UniqueKeys(a) && UniqueKeys(b) && forall k :: HasKey(a, k) <==> HasKey(b, k)
    ensures Keys(SortMembers(a)) == Keys(SortMembers(b))
  {
    SortedIsAscending(a);
    SortedIsAscending(b);
    forall k ensures k in Keys(SortMembers(a)) <==> k in Keys(SortMembers(b)) {
      SortedKeys(a, k);
      SortedKeys(b, k);
    }
    AscendingUnique(Keys(SortMembers(a)), Keys(SortMembers(b)));
  }

  /** The members at one place of the two sorted lists, as members of the originals. */
  lemma SortedPair(a: seq<Member>, b: seq<Member>, i: nat) returns (k: nat)
    requires UniqueKeys(a) && UniqueKeys(b) && forall k :: HasKey(a, k) <==> HasKey(b, k)
    requires i < |SortMembers(a)|
    ensures |SortMembers(a)| == |SortMembers(b)| && k < |a| && SortMembers(a)[i] == a[k]
    ensures HasKey(b, a[k].key) && SortMembers(b)[i] == Member(a[k].key, ValueAt(b, a[k].key))
  {
    var sa, sb := SortMembers(a), SortMembers(b);
    SameSortedKeys(a, b);
    assert |Keys(sa)| == |Keys(sb)| && Keys(sa)[i] == Keys(sb)[i];
    assert sa[i] in a && sb[i] in b;
    k :| 0 <= k < |a| && a[k] == sa[i];
    assert HasKey(a, a[k].key);
    UniqueMember(b, sb[i], Member(a[k].key, ValueAt(b, a[k].key)));
  }

  lemma {:induction false} ItemsAlike(v: Json, a: seq<Json>, w: Json, b: seq<Json>)
    requires ItemsBelow(v, a) && ItemsBelow(w, b)
    requires |a| == |b| && forall i :: 0 <= i < |a| ==> Encode(a[i]) == Encode(b[i])
    ensures EncodeItems(v, a) == EncodeItems(w, b)
    decreases |a|
  {
    if a != [] {
      ItemsAlike(v, a[1..], w, b[1..]);
    }
  }

  lemma {:induction false} MembersAlike(v: Json, a: seq<Member>, w: Json, b: seq<Member>)
    requires MembersBelow(v, a) && MembersBelow(w, b)
    requires |a| == |b| && forall i :: 0 <= i < |a| ==> a[i].key == b[i].key && Encode(a[i].value) == Encode(b[i].value)
    ensures EncodeMembers(v, a) == EncodeMembers(w, b)
    decreases |a|
  {
    if a != [] {
      MembersAlike(v, a[1..], w, b[1..]);
    }
  }

  /** Member order never affects the text. */
  lemma {:induction false} OrderIrrelevant(v: Json, w: Json)
    requires Encodable(v) && Encodable(w) && Reordered(v, w)
    ensures Encode(v) == Encode(w)
    decreases v, 1
  {
    match v
    case Arr(items) =>
      forall i | 0 <= i < |items| ensures Encode(items[i]) == Encode(w.items[i]) {
        OrderIrrelevant(items[i], w.items[i]);
      }
      ItemsAlike(v, items, w, w.items);
    case Obj(members) =>
      ObjectsAlike(v, w);
    case _ =>
  }

  lemma ObjectsAlike(v: Json, w: Json)
    requires v.Obj? && w.Obj? && Encodable(v) && Encodable(w) && Reordered(v, w)
    ensures Encode(v) == Encode(w)
    decreases v, 0
  {
    var a, b := SortMembers(v.members), SortMembers(w.members);
    SortedBelow(v, v.members);
    SortedBelow(w, w.members);
    SameSortedKeys(v.members, w.members);
    assert |Keys(a)| == |Keys(b)|;
    forall i | 0 <= i < |a| ensures a[i].key == b[i].key && Encode(a[i].value) == Encode(b[i].value) {
      var k := SortedPair(v.members, w.members, i);
      OrderIrrelevant(v.members[k].value, b[i].value);
    }
    MembersAlike(v, a, w, b);
  }
}
