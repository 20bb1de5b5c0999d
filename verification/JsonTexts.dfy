/** JSON text as the encoder writes it and the decoder reads it, for documents without numbers, and
    the proof that it has the properties that reading a file of records asks for. */
module JsonTexts {
  import opened Tasks
  import opened PlanJson
  import opened JsonLines

  // ---------- writing strings ----------

  const HEX := "0123456789abcdef"

  /** Quotes, backslashes and control characters are escaped; all else, U+2028 too, is kept. */
  function EscapeChar(c: char): (r: string)
    ensures r != "" && r[0] != '"' && forall i :: 0 <= i < |r| ==> r[i] >= ' '
  {
    if c == '"' then "\\\""
    else if c == '\\' then "\\\\"
    else if c == '\n' then "\\n"
    else if c == '\r' then "\\r"
    else if c == '\t' then "\\t"
    else if c == '\U{08}' then "\\b"
    else if c == '\U{0C}' then "\\f"
    else if c < ' ' then ['\\', 'u', '0', '0', HEX[c as int / 16], HEX[c as int % 16]]
    else [c]
  }

  predicate Printable(text: string) {
    forall i :: 0 <= i < |text| ==> text[i] >= ' '
  }

  /** The rest of a string from `s` on, its closing quote, and what follows. */
  function StringThen(s: string, rest: string): (r: string)
    ensures Printable(rest) ==> Printable(r)
  {
    if s == "" then "\"" + rest else EscapeChar(s[0]) + StringThen(s[1..], rest)
  }

  // ---------- reading strings ----------

  function HexValue(c: char): Option<nat> {
    if '0' <= c <= '9' then Some(c as nat - '0' as nat)
    else if 'a' <= c <= 'f' then Some(c as nat - 'a' as nat + 10)
    else if 'A' <= c <= 'F' then Some(c as nat - 'A' as nat + 10)
    else None
  }

  function Unescaped(c: char): Option<char> {
    if c == '"' || c == '\\' || c == '/' then Some(c)
    else if c == 'n' then Some('\n')
    else if c == 'r' then Some('\r')
    else if c == 't' then Some('\t')
    else if c == 'b' then Some('\U{08}')
    else if c == 'f' then Some('\U{0C}')
    else None
  }

  /** Four hexadecimal digits that name a character; surrogates name none. */
  function ReadHex(text: string): Option<char>
    requires |text| >= 4
  {
    var a, b, c, d := HexValue(text[0]), HexValue(text[1]), HexValue(text[2]), HexValue(text[3]);
    if a.None? || b.None? || c.None? || d.None? then None
    else
      var code := 0x1000 * a.value + 0x100 * b.value + 0x10 * c.value + d.value;
      if code < 0xD800 || 0xE000 <= code < 0x10000 then Some(code as char) else None
  }

  /** One character of a string: control characters have to be escaped. */
  function ReadChar(text: string): (r: Option<(char, string)>)
    ensures r.Some? ==> |r.value.1| < |text|
  {
    if text == "" || text[0] == '"' || text[0] < ' ' then None
    else if text[0] != '\\' then Some((text[0], text[1..]))
    else if |text| < 2 then None
    else if text[1] == 'u' then
      if |text| < 6 then None
      else match ReadHex(text[2..]) case None => None case Some(c) => Some((c, text[6..]))
    else match Unescaped(text[1]) case None => None case Some(c) => Some((c, text[2..]))
  }

  /** The string up to its closing quote, and what follows. */
  function ReadString(text: string): (r: Option<(string, string)>)
    ensures r.Some? ==> |r.value.1| < |text|
    decreases |text|
  {
    if text != "" && text[0] == '"' then Some(("", text[1..]))
    else match ReadChar(text)
      case None => None
      case Some((c, next)) =>
        match ReadString(next) case None => None case Some((s, rest)) => Some(([c] + s, rest))
  }

  lemma HexDigitIsRead(d: nat)
    requires d < 16
    ensures HexValue(HEX[d]) == Some(d)
  {
  }

  /** What is escaped, and how. */
  lemma EscapesAre(c: char)
    ensures c >= ' ' && c != '"' && c != '\\' ==> EscapeChar(c) == [c]
    ensures EscapeChar('"') == "\\\"" && EscapeChar('\\') == "\\\\"
    ensures EscapeChar('\n') == "\\n" && EscapeChar('\r') == "\\r" && EscapeChar('\t') == "\\t"
    ensures EscapeChar('\U{08}') == "\\b" && EscapeChar('\U{0C}') == "\\f"
    ensures c < ' ' && c !in {'\n', '\r', '\t', '\U{08}', '\U{0C}'} ==>
      EscapeChar(c) == "\\u00" + ["0123456789abcdef"[c as int / 16], "0123456789abcdef"[c as int % 16]]
  {
  }

  /** The digits of either case, and nothing else. */
  lemma HexDigitsAre(c: char, d: nat)
    requires d < 16
    ensures HexValue("0123456789abcdef"[d]) == Some(d) && HexValue("0123456789ABCDEF"[d]) == Some(d)
    ensures HexValue(c).Some? <==>
      c in {'0', '1', '2', '3', '4', '5', '6', '7', '8', '9', 'a', 'b', 'c', 'd', 'e', 'f', 'A', 'B', 'C', 'D', 'E', 'F'}
  {
  }

  /** An escape by number: it names the character with that number, except for surrogates. */
  lemma NumberIsRead(a: nat, b: nat, c: nat, d: nat, rest: string)
    requires a < 16 && b < 16 && c < 16 && d < 16
    ensures var code := 0x1000 * a + 0x100 * b + 0x10 * c + d;
      && (0xD800 <= code < 0xE000 ==> ReadChar("\\u" + [HEX[a], HEX[b], HEX[c], HEX[d]] + rest) == None)
      && (!(0xD800 <= code < 0xE000) ==> ReadChar("\\u" + [HEX[a], HEX[b], HEX[c], HEX[d]] + rest) == Some((code as char, rest)))
  {
    var text := "\\u" + [HEX[a], HEX[b], HEX[c], HEX[d]] + rest;
    assert text[2..] == [HEX[a], HEX[b], HEX[c], HEX[d]] + rest && text[6..] == rest;
    HexDigitIsRead(a);
    HexDigitIsRead(b);
    HexDigitIsRead(c);
    HexDigitIsRead(d);
    hide HexValue, Unescaped;
  }

  lemma CharIsReadBack(c: char, rest: string)
    ensures ReadChar(EscapeChar(c) + rest) == Some((c, rest))
  {
    var escape := EscapeChar(c);
    var text := escape + rest;
    assert text[0] == escape[0] && text[|escape|..] == rest;
    if escape[0] == '\\' {
      assert |escape| >= 2 && text[1] == escape[1];
      if escape[1] == 'u' {
        HexDigitIsRead(c as int / 16);
        HexDigitIsRead(c as int % 16);
        assert text[2..][0] == '0' && text[2..][1] == '0' && text[2..][2] == escape[4] && text[2..][3] == escape[5];
      }
    }
  }

  lemma {:induction false} StringIsReadBack(s: string, rest: string)
    ensures ReadString(StringThen(s, rest)) == Some((s, rest))
    decreases |s|
  {
    if s != "" {
      var next := StringThen(s[1..], rest);
      CharIsReadBack(s[0], next);
      StringIsReadBack(s[1..], rest);
      assert (EscapeChar(s[0]) + next)[0] == EscapeChar(s[0])[0];
      assert s == [s[0]] + s[1..];
    }
  }

  /** What has been read does not depend on what comes after it. */
  lemma ReadCharFurther(text: string, more: string)
    requires ReadChar(text).Some?
    ensures ReadChar(text + more) == Some((ReadChar(text).value.0, ReadChar(text).value.1 + more))
  {
    var longer := text + more;
    assert longer[0] == text[0] && longer[1..] == text[1..] + more;
    if text[0] == '\\' {
      assert longer[1] == text[1] && longer[2..] == text[2..] + more;
      if text[1] == 'u' {
        assert longer[6..] == text[6..] + more;
        assert forall i :: 0 <= i < 4 ==> longer[2..][i] == text[2..][i];
      }
    }
  }

  lemma {:induction false} ReadStringFurther(text: string, more: string)
    requires ReadString(text).Some?
    ensures ReadString(text + more) == Some((ReadString(text).value.0, ReadString(text).value.1 + more))
    decreases |text|
  {
    assert (text + more)[0] == text[0];
    if text[0] == '"' {
      assert (text + more)[1..] == text[1..] + more;
    } else {
      ReadCharFurther(text, more);
      ReadStringFurther(ReadChar(text).value.1, more);
    }
  }

  // ---------- writing documents ----------

  /** Documents of strings, truth values and nulls; the keys of an object are distinct. */
  predicate Plain(j: Json)
    decreases j
  {
    match j
    case JNull => true
    case JBool(_) => true
    case JStr(_) => true
    case JList(items) => forall i :: 0 <= i < |items| ==> Plain(items[i])
    case JDict(entries) => DistinctKeys(entries) && forall i :: 0 <= i < |entries| ==> Plain(entries[i].value)
    case _ => false
  }

  predicate DistinctKeys(entries: seq<JItem>) {
    forall i, k :: 0 <= i < k < |entries| ==> entries[i].key != entries[k].key
  }

  /** Before every part but the first. */
  function Comma(first: bool): string { if first then "" else ", " }

  /** The text of a document, and what follows. */
  function ValueThen(j: Json, rest: string): (r: string)
    requires Plain(j)
    ensures r != "" && r[0] in {'n', 't', 'f', '"', '[', '{'} && (j.JDict? ==> r[0] == '{')
    ensures Printable(rest) ==> Printable(r)
    decreases j
  {
    match j
    case JNull => "null" + rest
    case JBool(b) => (if b then "true" else "false") + rest
    case JStr(s) => "\"" + StringThen(s, rest)
    case JList(items) => "[" + ItemsThen(items, true, rest)
    case JDict(entries) => "{" + MembersThen(entries, true, rest)
  }

  function ItemsThen(items: seq<Json>, first: bool, rest: string): (r: string)
    requires forall i :: 0 <= i < |items| ==> Plain(items[i])
    ensures r != "" && (items == [] ==> r[0] == ']') && (items != [] && !first ==> r[0] == ',')
    ensures Printable(rest) ==> Printable(r)
    decreases items
  {
    if items == [] then "]" + rest
    else Comma(first) + ValueThen(items[0], ItemsThen(items[1..], false, rest))
  }

  function MembersThen(entries: seq<JItem>, first: bool, rest: string): (r: string)
    requires forall i :: 0 <= i < |entries| ==> Plain(entries[i].value)
    ensures r != "" && (entries == [] ==> r[0] == '}') && (entries != [] ==> r[0] == if first then '"' else ',')
    ensures Printable(rest) ==> Printable(r)
    decreases entries
  {
    if entries == [] then "}" + rest
    else
      Comma(first)
      + ("\"" + StringThen(entries[0].key, ": " + ValueThen(entries[0].value, MembersThen(entries[1..], false, rest))))
  }

  function TextOf(j: Json): string {
    if Plain(j) then ValueThen(j, "") else ""
  }

  // ---------- reading documents ----------

  datatype Parse = Got(value: Json, rest: string) | Bad

  function Skip(text: string): (r: string)
    ensures |r| <= |text|
    ensures r == "" || r[0] !in {' ', '\t', '\n', '\r'}
  {
    if text != "" && text[0] in {' ', '\t', '\n', '\r'} then Skip(text[1..]) else text
  }

  /** A key that comes again takes the place of the earlier one. */
  function Put(entries: seq<JItem>, key: string, value: Json): seq<JItem> {
    if entries == [] then [JItem(key, value)]
    else if entries[0].key == key then [JItem(key, value)] + entries[1..]
    else [entries[0]] + Put(entries[1..], key, value)
  }

  /** The value that starts with the first character. */
  function ReadFrom(t: string): (r: Parse)
    requires t != ""
    ensures r.Got? ==> |r.rest| < |t|
    decreases |t|, 0
  {
    if t[0] == '"' then
      (match ReadString(t[1..]) case None => Bad case Some((s, rest)) => Got(JStr(s), rest))
    else if t[0] == '[' then
      var inside := Skip(t[1..]);
      if inside != "" && inside[0] == ']' then Got(JList([]), inside[1..]) else ReadItems(inside, [])
    else if t[0] == '{' then
      var inside := Skip(t[1..]);
      if inside != "" && inside[0] == '}' then Got(JDict([]), inside[1..]) else ReadMembers(inside, [])
    else if "null" <= t then Got(JNull, t[4..])
    else if "true" <= t then Got(JBool(true), t[4..])
    else if "false" <= t then Got(JBool(false), t[5..])
    else Bad
  }

  function ReadValue(text: string): (r: Parse)
    ensures r.Got? ==> |r.rest| < |text|
    decreases |text|, 1
  {
    if Skip(text) == "" then Bad else ReadFrom(Skip(text))
  }

  function ReadItems(text: string, done: seq<Json>): (r: Parse)
    ensures r.Got? ==> |r.rest| < |text|
    decreases |text|, 2
  {
    match ReadValue(text)
    case Bad => Bad
    case Got(item, rest) =>
      var t := Skip(rest);
      if t != "" && t[0] == ']' then Got(JList(done + [item]), t[1..])
      else if t != "" && t[0] == ',' then ReadItems(t[1..], done + [item])
      else Bad
  }

  function ReadMembers(text: string, done: seq<JItem>): (r: Parse)
    ensures r.Got? ==> |r.rest| < |text|
    decreases |text|, 2
  {
    var t := Skip(text);
    if t == "" || t[0] != '"' then Bad
    else match ReadString(t[1..])
      case None => Bad
      case Some((key, afterKey)) =>
        var colon := Skip(afterKey);
        if colon == "" || colon[0] != ':' then Bad
        else match ReadValue(colon[1..])
          case Bad => Bad
          case Got(value, rest) =>
            var u := Skip(rest);
            if u != "" && u[0] == '}' then Got(JDict(Put(done, key, value)), u[1..])
            else if u != "" && u[0] == ',' then ReadMembers(u[1..], Put(done, key, value))
            else Bad
  }

  /** A whole document: nothing but blanks may follow. */
  function Load(text: string): Option<Json> {
    match ReadValue(text)
    case Bad => None
    case Got(j, rest) => if Skip(rest) == "" then Some(j) else None
  }

  // ---------- what is written is read back ----------

  lemma {:induction false} NewKeyIsAppended(done: seq<JItem>, key: string, value: Json)
    requires forall i :: 0 <= i < |done| ==> done[i].key != key
    ensures Put(done, key, value) == done + [JItem(key, value)]
  {
    if done != [] {
      NewKeyIsAppended(done[1..], key, value);
      assert done == [done[0]] + done[1..];
    }
  }

  lemma NewKeyComesNext(entries: seq<JItem>, done: seq<JItem>)
    requires entries != [] && DistinctKeys(done + entries)
    ensures forall i :: 0 <= i < |done| ==> done[i].key != entries[0].key
  {
    var all := done + entries;
    assert all[|done|] == entries[0] && forall i :: 0 <= i < |done| ==> all[i] == done[i];
  }

  predicate Blank1(c: char) { c in {' ', '\t', '\n', '\r'} }

  lemma NothingToSkip(text: string)
    requires text != "" && !Blank1(text[0])
    ensures Skip(text) == text
  {
  }

  lemma AfterBlank(text: string, items: seq<Json>, entries: seq<JItem>)
    ensures ReadValue(" " + text) == ReadValue(text)
    ensures ReadItems(" " + text, items) == ReadItems(text, items)
    ensures ReadMembers(" " + text, entries) == ReadMembers(text, entries)
  {
    assert (" " + text)[1..] == text && Skip(" " + text) == Skip(text);
    hide ReadString;
    assert ReadValue(" " + text) == ReadValue(text);
    hide ReadValue, Skip;
  }

  lemma ReadsWord(j: Json, rest: string)
    requires j.JNull? || j.JBool?
    ensures ReadValue(ValueThen(j, rest)) == Got(j, rest)
  {
    var text := ValueThen(j, rest);
    NothingToSkip(text);
    hide ReadString, ReadItems, ReadMembers, Skip;
    assert text[if j == JBool(false) then 5 else 4..] == rest;
  }

  lemma ReadsQuoted(text: string)
    requires text != "" && text[0] == '"'
    ensures ReadValue(text) == match ReadString(text[1..]) case None => Bad case Some((s, rest)) => Got(JStr(s), rest)
  {
    NothingToSkip(text);
    hide ReadString, ReadItems, ReadMembers, Skip;
  }

  lemma ReadsBracket(text: string)
    requires |text| > 1 && text[0] == '[' && !Blank1(text[1])
    ensures ReadValue(text) == if text[1] == ']' then Got(JList([]), text[2..]) else ReadItems(text[1..], [])
  {
    NothingToSkip(text);
    NothingToSkip(text[1..]);
    hide ReadString, ReadItems, ReadMembers, Skip;
    assert text[1..][1..] == text[2..];
  }

  lemma ReadsBrace(text: string)
    requires |text| > 1 && text[0] == '{' && !Blank1(text[1])
    ensures ReadValue(text) == if text[1] == '}' then Got(JDict([]), text[2..]) else ReadMembers(text[1..], [])
  {
    NothingToSkip(text);
    NothingToSkip(text[1..]);
    hide ReadString, ReadItems, ReadMembers, Skip;
    assert text[1..][1..] == text[2..];
  }

  lemma ReadsItem(text: string, done: seq<Json>, item: Json, rest: string)
    requires ReadValue(text) == Got(item, rest) && rest != "" && rest[0] in {']', ','}
    ensures ReadItems(text, done) == if rest[0] == ']' then Got(JList(done + [item]), rest[1..]) else ReadItems(rest[1..], done + [item])
  {
    NothingToSkip(rest);
    hide ReadValue, Skip;
  }

  lemma ReadsMember(text: string, done: seq<JItem>, key: string, afterKey: string, value: Json, rest: string)
    requires text != "" && text[0] == '"' && ReadString(text[1..]) == Some((key, afterKey))
    requires afterKey != "" && afterKey[0] == ':' && ReadValue(afterKey[1..]) == Got(value, rest)
    requires rest != "" && rest[0] in {'}', ','}
    ensures ReadMembers(text, done)
         == if rest[0] == '}' then Got(JDict(Put(done, key, value)), rest[1..]) else ReadMembers(rest[1..], Put(done, key, value))
  {
    NothingToSkip(text);
    NothingToSkip(afterKey);
    NothingToSkip(rest);
    hide ReadValue, Skip, ReadString, Put;
  }

  lemma {:induction false} ValueIsReadBack(j: Json, rest: string)
    requires Plain(j)
    ensures ReadValue(ValueThen(j, rest)) == Got(j, rest)
    decreases j
  {
    hide ReadValue, ReadItems, ReadMembers, ReadString, StringThen;
    var text := ValueThen(j, rest);
    match j
    case JNull => ReadsWord(j, rest);
    case JBool(_) => ReadsWord(j, rest);
    case JStr(s) =>
      assert text[1..] == StringThen(s, rest);
      StringIsReadBack(s, rest);
      ReadsQuoted(text);
    case JList(items) =>
      assert text[1..] == ItemsThen(items, true, rest) && text[2..] == text[1..][1..];
      ReadsBracket(text);
      if items == [] {
        assert ("]" + rest)[1..] == rest;
      } else {
        ItemsAreReadBack(items, [], rest);
        assert [] + items == items;
      }
    case JDict(entries) =>
      assert text[1..] == MembersThen(entries, true, rest) && text[2..] == text[1..][1..];
      ReadsBrace(text);
      if entries == [] {
        assert ("}" + rest)[1..] == rest;
      } else {
        assert [] + entries == entries;
        MembersAreReadBack(entries, [], rest);
      }
  }

  lemma {:induction false} ItemsAreReadBack(items: seq<Json>, done: seq<Json>, rest: string)
    requires items != [] && forall i :: 0 <= i < |items| ==> Plain(items[i])
    ensures ReadItems(ItemsThen(items, true, rest), done) == Got(JList(done + items), rest)
    decreases items
  {
    hide ReadValue, ReadItems, ReadMembers, ReadString, StringThen, ValueThen;
    var tail := ItemsThen(items[1..], false, rest);
    assert ItemsThen(items, true, rest) == "" + ValueThen(items[0], tail) == ValueThen(items[0], tail);
    ValueIsReadBack(items[0], tail);
    ReadsItem(ItemsThen(items, true, rest), done, items[0], tail);
    if items[1..] == [] {
      assert items == [items[0]] && tail == "]" + rest && tail[1..] == rest;
    } else {
      var again := ItemsThen(items[1..], true, rest);
      assert tail == ", " + again && tail[1..] == " " + again;
      AfterBlank(again, done + [items[0]], []);
      ItemsAreReadBack(items[1..], done + [items[0]], rest);
      assert done + [items[0]] + items[1..] == done + items;
    }
  }

  /** The text of a first member, up to the text of its value. */
  lemma MemberText(entries: seq<JItem>, rest: string)
    requires entries != [] && forall i :: 0 <= i < |entries| ==> Plain(entries[i].value)
    ensures var value := ValueThen(entries[0].value, MembersThen(entries[1..], false, rest));
      var text := MembersThen(entries, true, rest);
      && text[0] == '"' && ReadString(text[1..]) == Some((entries[0].key, ": " + value))
      && ReadValue((": " + value)[1..]) == ReadValue(value)
  {
    hide ReadValue, ReadString, ValueThen, StringThen;
    var value := ValueThen(entries[0].value, MembersThen(entries[1..], false, rest));
    var text := MembersThen(entries, true, rest);
    assert text == "" + ("\"" + StringThen(entries[0].key, ": " + value)) == "\"" + StringThen(entries[0].key, ": " + value);
    assert text[1..] == StringThen(entries[0].key, ": " + value);
    StringIsReadBack(entries[0].key, ": " + value);
    assert (": " + value)[1..] == " " + value;
    AfterBlank(value, [], []);
  }

  /** What follows a first member. */
  lemma MembersTail(entries: seq<JItem>, rest: string)
    requires entries != [] && forall i :: 0 <= i < |entries| ==> Plain(entries[i].value)
    ensures var tail := MembersThen(entries[1..], false, rest);
      if |entries| == 1 then tail[0] == '}' && tail[1..] == rest
      else tail[0] == ',' && forall done :: ReadMembers(tail[1..], done) == ReadMembers(MembersThen(entries[1..], true, rest), done)
  {
    hide ReadMembers, ValueThen, StringThen;
    var tail := MembersThen(entries[1..], false, rest);
    if |entries| == 1 {
      assert tail == "}" + rest;
    } else {
      var again := MembersThen(entries[1..], true, rest);
      assert tail == ", " + again && tail[1..] == " " + again;
      forall done
        ensures ReadMembers(tail[1..], done) == ReadMembers(again, done)
      {
        AfterBlank(again, [], done);
      }
    }
  }

  lemma {:induction false} MembersAreReadBack(entries: seq<JItem>, done: seq<JItem>, rest: string)
    requires entries != [] && (forall i :: 0 <= i < |entries| ==> Plain(entries[i].value)) && DistinctKeys(done + entries)
    ensures ReadMembers(MembersThen(entries, true, rest), done) == Got(JDict(done + entries), rest)
    decreases entries
  {
    hide ReadValue, ReadMembers, ReadString, StringThen, ValueThen, Put, DistinctKeys, MembersThen;
    var m, tail := entries[0], MembersThen(entries[1..], false, rest);
    MemberText(entries, rest);
    MembersTail(entries, rest);
    ValueIsReadBack(m.value, tail);
    ReadsMember(MembersThen(entries, true, rest), done, m.key, ": " + ValueThen(m.value, tail), m.value, tail);
    NewKeyComesNext(entries, done);
    NewKeyIsAppended(done, m.key, m.value);
    assert m == JItem(m.key, m.value) && done + [m] + entries[1..] == done + entries;
    if |entries| == 1 {
      assert done + [m] == done + entries;
    } else {
      MembersAreReadBack(entries[1..], done + [m], rest);
    }
  }

  // ---------- what has been read does not depend on what comes after it ----------

  lemma {:induction false} SkipFurther(text: string, more: string)
    requires Skip(text) != ""
    ensures Skip(text + more) == Skip(text) + more
    decreases |text|
  {
    assert (text + more)[0] == text[0] && (text + more)[1..] == text[1..] + more;
    if Blank1(text[0]) {
      SkipFurther(text[1..], more);
    }
  }

  lemma OneFurther(t: string, more: string)
    requires t != ""
    ensures (t + more)[0] == t[0] && (t + more)[1..] == t[1..] + more
  {
  }

  lemma WordFurther(word: string, t: string, more: string)
    requires word <= t
    ensures word <= t + more && (t + more)[|word|..] == t[|word|..] + more
  {
  }

  lemma {:induction false} ReadValueFurther(text: string, more: string)
    requires ReadValue(text).Got?
    ensures ReadValue(text + more) == Got(ReadValue(text).value, ReadValue(text).rest + more)
    decreases |text|, 1
  {
    hide ReadFrom, ReadItems, ReadMembers, ReadString, Skip;
    SkipFurther(text, more);
    var t := Skip(text);
    OneFurther(t, more);
    if t[0] == '"' {
      QuotedFurther(t, more);
    } else if t[0] == '[' || t[0] == '{' {
      InsideFurther(t, more);
    } else {
      WordsFurther(t, more);
    }
  }

  lemma QuotedFurther(t: string, more: string)
    requires t != "" && t[0] == '"' && ReadFrom(t).Got?
    ensures ReadFrom(t + more) == Got(ReadFrom(t).value, ReadFrom(t).rest + more)
  {
    OneFurther(t, more);
    ReadStringFurther(t[1..], more);
    hide ReadString, ReadItems, ReadMembers;
  }

  lemma WordsFurther(t: string, more: string)
    requires t != "" && t[0] !in {'"', '[', '{'} && ReadFrom(t).Got?
    ensures ReadFrom(t + more) == Got(ReadFrom(t).value, ReadFrom(t).rest + more)
  {
    hide ReadItems, ReadMembers, ReadString, Skip;
    if "null" <= t {
      WordFurther("null", t, more);
    } else if "true" <= t {
      WordFurther("true", t, more);
    } else {
      WordFurther("false", t, more);
    }
  }

  lemma {:induction false} InsideFurther(t: string, more: string)
    requires t != "" && t[0] in {'[', '{'} && ReadFrom(t).Got?
    ensures ReadFrom(t + more) == Got(ReadFrom(t).value, ReadFrom(t).rest + more)
    decreases |t|, 0
  {
    hide ReadItems, ReadMembers, ReadString, ReadValue;
    OneFurther(t, more);
    var inside := Skip(t[1..]);
    if inside == "" {
      NothingInside(t[0] == '[');
    } else {
      SkipFurther(t[1..], more);
      OneFurther(inside, more);
      hide Skip;
      if t[0] == '[' && inside[0] != ']' {
        ReadItemsFurther(inside, [], more);
      } else if t[0] == '{' && inside[0] != '}' {
        ReadMembersFurther(inside, [], more);
      }
    }
  }

  lemma NothingInside(list: bool)
    ensures ReadItems("", []) == Bad && ReadMembers("", []) == Bad
  {
  }

  lemma {:induction false} ReadItemsFurther(text: string, done: seq<Json>, more: string)
    requires ReadItems(text, done).Got?
    ensures ReadItems(text + more, done) == Got(ReadItems(text, done).value, ReadItems(text, done).rest + more)
    decreases |text|, 2
  {
    ReadValueFurther(text, more);
    hide ReadValue;
    var item := ReadValue(text);
    var t := Skip(item.rest);
    SkipFurther(item.rest, more);
    OneFurther(t, more);
    hide Skip;
    if t[0] == ',' {
      ReadItemsFurther(t[1..], done + [item.value], more);
    }
  }

  lemma {:induction false} ReadMembersFurther(text: string, done: seq<JItem>, more: string)
    requires ReadMembers(text, done).Got?
    ensures ReadMembers(text + more, done) == Got(ReadMembers(text, done).value, ReadMembers(text, done).rest + more)
    decreases |text|, 2
  {
    hide ReadValue, ReadString, Put;
    var t := Skip(text);
    SkipFurther(text, more);
    OneFurther(t, more);
    ReadStringFurther(t[1..], more);
    var afterKey := ReadString(t[1..]).value.1;
    var colon := Skip(afterKey);
    SkipFurther(afterKey, more);
    OneFurther(colon, more);
    ReadValueFurther(colon[1..], more);
    var value := ReadValue(colon[1..]);
    var u := Skip(value.rest);
    SkipFurther(value.rest, more);
    OneFurther(u, more);
    hide Skip;
    if u[0] == ',' {
      ReadMembersFurther(u[1..], Put(done, ReadString(t[1..]).value.0, value.value), more);
    }
  }

  // ---------- the encoder is faithful ----------

  const CODEC := Codec(TextOf, Load)

  /** Where all of a text has been read, no proper beginning can be. */
  lemma BeginningIsBad(text: string, more: string)
    requires more != "" && ReadValue(text + more).Got? && ReadValue(text + more).rest == ""
    ensures ReadValue(text).Bad?
  {
    hide ReadValue;
    if ReadValue(text).Got? {
      ReadValueFurther(text, more);
      assert false;
    }
  }

  lemma NoBeginningIsRead(j: Json, n: nat)
    requires Plain(j) && n < |TextOf(j)|
    ensures Load(TextOf(j)[..n]).None?
  {
    var text := TextOf(j);
    ValueIsReadBack(j, "");
    hide ReadValue, ValueThen, Skip;
    assert text[..n] + text[n..] == text;
    BeginningIsBad(text[..n], text[n..]);
  }

  /** The decoder reads the text of an object back, and no proper beginning of it. */
  lemma {:induction false} PlainRecordsAreFaithful(j: Json)
    requires Plain(j) && j.JDict?
    ensures FaithfulAt(CODEC, j) && IsRecord(j)
  {
    ValueIsReadBack(j, "");
    assert Printable("") && TextOf(j) == ValueThen(j, "");
    forall n | 0 <= n < |TextOf(j)|
      ensures Load(TextOf(j)[..n]).None?
    {
      NoBeginningIsRead(j, n);
    }
    hide ReadValue, ValueThen, Plain;
  }

  // ---------- which files can be read back ----------

  /** The three characters at which lines are split and which the encoder does not escape. */
  predicate Separates(c: char) { c in {'\U{85}', '\U{2028}', '\U{2029}'} }

  predicate Clean(s: string) {
    forall i :: 0 <= i < |s| ==> !Separates(s[i])
  }

  /** No string and no key of the document holds such a character. */
  predicate CleanDocument(j: Json)
    decreases j
  {
    match j
    case JStr(s) => Clean(s)
    case JList(items) => forall i :: 0 <= i < |items| ==> CleanDocument(items[i])
    case JDict(entries) => forall i :: 0 <= i < |entries| ==> Clean(entries[i].key) && CleanDocument(entries[i].value)
    case _ => true
  }

  lemma Joined(a: string, b: string)
    ensures BreakFree(a + b) <==> BreakFree(a) && BreakFree(b)
  {
    assert forall i :: 0 <= i < |a| ==> (a + b)[i] == a[i];
    assert forall i :: 0 <= i < |b| ==> (a + b)[|a| + i] == b[i];
  }

  lemma EscapeSplitsIff(c: char)
    ensures BreakFree(EscapeChar(c)) <==> !Separates(c)
  {
    assert Separates(c) ==> EscapeChar(c) == [c] && EscapeChar(c)[0] == c;
  }

  lemma {:induction false} StringSplitsIff(s: string, rest: string)
    ensures BreakFree(StringThen(s, rest)) <==> Clean(s) && BreakFree(rest)
    decreases |s|
  {
    if s == "" {
      Joined("\"", rest);
    } else {
      StringSplitsIff(s[1..], rest);
      EscapeSplitsIff(s[0]);
      Joined(EscapeChar(s[0]), StringThen(s[1..], rest));
      assert forall i :: 0 < i < |s| ==> s[i] == s[1..][i - 1];
      hide BreakFree, Separates, EscapeChar;
    }
  }

  lemma MemberSplitsIff(key: string, value: string)
    ensures BreakFree("\"" + StringThen(key, ": " + value)) <==> Clean(key) && BreakFree(value)
  {
    Joined("\"", StringThen(key, ": " + value));
    StringSplitsIff(key, ": " + value);
    Joined(": ", value);
    assert BreakFree("\"") && BreakFree(": ");
    hide BreakFree, Clean, StringThen;
  }

  lemma {:induction false} ValueSplitsIff(j: Json, rest: string)
    requires Plain(j)
    ensures BreakFree(ValueThen(j, rest)) <==> CleanDocument(j) && BreakFree(rest)
    decreases j
  {
    match j
    case JNull => Joined("null", rest);
    case JBool(b) => Joined(if b then "true" else "false", rest);
    case JStr(s) =>
      Joined("\"", StringThen(s, rest));
      StringSplitsIff(s, rest);
    case JList(items) =>
      Joined("[", ItemsThen(items, true, rest));
      ItemsSplitIff(items, true, rest);
    case JDict(entries) =>
      Joined("{", MembersThen(entries, true, rest));
      MembersSplitIff(entries, true, rest);
  }

  lemma CommaSplitsNothing(first: bool)
    ensures BreakFree(Comma(first))
  {
  }

  lemma {:induction false} ItemsSplitIff(items: seq<Json>, first: bool, rest: string)
    requires forall i :: 0 <= i < |items| ==> Plain(items[i])
    ensures BreakFree(ItemsThen(items, first, rest)) <==> (forall i :: 0 <= i < |items| ==> CleanDocument(items[i])) && BreakFree(rest)
    decreases items
  {
    if items == [] {
      Joined("]", rest);
    } else {
      var tail := ItemsThen(items[1..], false, rest);
      hide BreakFree, ValueThen, CleanDocument;
      Joined(Comma(first), ValueThen(items[0], tail));
      CommaSplitsNothing(first);
      ValueSplitsIff(items[0], tail);
      ItemsSplitIff(items[1..], false, rest);
      assert forall i :: 0 < i < |items| ==> items[i] == items[1..][i - 1];
      assert ItemsThen(items, first, rest) == Comma(first) + ValueThen(items[0], tail);
    }
  }

  predicate CleanMembers(entries: seq<JItem>) {
    forall i :: 0 <= i < |entries| ==> Clean(entries[i].key) && CleanDocument(entries[i].value)
  }

  lemma FirstMemberFirst(entries: seq<JItem>)
    requires entries != []
    ensures CleanMembers(entries) <==> Clean(entries[0].key) && CleanDocument(entries[0].value) && CleanMembers(entries[1..])
  {
    hide Clean, CleanDocument;
    assert forall i :: 0 < i < |entries| ==> entries[i] == entries[1..][i - 1];
  }

  lemma {:induction false} MembersSplitIff(entries: seq<JItem>, first: bool, rest: string)
    requires forall i :: 0 <= i < |entries| ==> Plain(entries[i].value)
    ensures BreakFree(MembersThen(entries, first, rest)) <==> CleanMembers(entries) && BreakFree(rest)
    decreases entries
  {
    if entries == [] {
      Joined("}", rest);
    } else {
      hide BreakFree, StringThen, ValueThen, CleanMembers, Clean, CleanDocument;
      var tail := MembersThen(entries[1..], false, rest);
      var member := "\"" + StringThen(entries[0].key, ": " + ValueThen(entries[0].value, tail));
      FirstMemberFirst(entries);
      MemberSplitsIff(entries[0].key, ValueThen(entries[0].value, tail));
      ValueSplitsIff(entries[0].value, tail);
      MembersSplitIff(entries[1..], false, rest);
      Joined(Comma(first), member);
      CommaSplitsNothing(first);
      assert MembersThen(entries, first, rest) == Comma(first) + member;
    }
  }

  /** A file of such records is read back as it was written iff no string or key in any of them
      holds U+0085, U+2028 or U+2029; with one of these, reading the whole file raises. */
  lemma {:induction false} PlainFileReadsBackIff(records: seq<Json>)
    requires forall r :: r in records ==> Plain(r) && r.JDict?
    ensures Read(CODEC, Written(CODEC, records)) == if forall r :: r in records ==> CleanDocument(r) then Some(records) else None
  {
    forall r | r in records
      ensures FaithfulAt(CODEC, r) && IsRecord(r)
      ensures BreakFree(CODEC.dump(r)) <==> CleanDocument(r)
    {
      PlainRecordsAreFaithful(r);
      ValueSplitsIff(r, "");
      assert BreakFree("");
    }
    ReadBackIff(CODEC, records);
    hide FaithfulAt, Plain, CleanDocument, BreakFree;
  }

  /** A description with U+2028 in it is enough: the file is written without complaint and never
      read again. */
  lemma SomeFileIsSpoilt(before: seq<Json>, after: seq<Json>)
    requires forall r :: r in before + after ==> Plain(r) && r.JDict?
    ensures var j := JDict([JItem("description", JStr("\U{2028}"))]);
      Plain(j) && Read(CODEC, Written(CODEC, before + [j] + after)).None?
  {
    var j := JDict([JItem("description", JStr("\U{2028}"))]);
    var records := before + [j] + after;
    assert records[|before|] == j && !CleanDocument(j) by {
      assert "\U{2028}"[0] == '\U{2028}' && !CleanDocument(j.entries[0].value);
    }
    hide CleanDocument;
    assert Plain(j);
    forall r | r in records
      ensures Plain(r) && r.JDict?
    {
      assert r in before + after || r == j;
    }
    PlainFileReadsBackIff(records);
    hide Plain;
  }
}
