/**
 * The stored text of an id list: `JSON.stringify` of an array of strings, the reader that inverts
 * it, and the substring query the database runs against it.
 */
module AudienceJson {
  import opened Wrappers

  // ---------------------------------------------------------------- writing

  const HEX := "0123456789abcdef"

  /** One character of a JSON string, escaped as `JSON.stringify` does. */
  function EscapeChar(c: char): string {
    if c == '"' then "\\\""
    else if c == '\\' then "\\\\"
    else if c == '\n' then "\\n"
    else if c == '\r' then "\\r"
    else if c == '\t' then "\\t"
    else if c as int == 8 then "\\b"
    else if c as int == 12 then "\\f"
    else if c < ' ' then "\\u00" + [HEX[c as int / 16], HEX[c as int % 16]]
    else [c]
  }

  function Escape(s: string): string {
    if s == "" then "" else EscapeChar(s[0]) + Escape(s[1..])
  }

  function Quoted(s: string): string {
    "\"" + Escape(s) + "\""
  }

  function Items(ids: seq<string>): string {
    if ids == [] then ""
    else if |ids| == 1 then Quoted(ids[0])
    else Quoted(ids[0]) + ("," + Items(ids[1..]))
  }

  function Stringify(ids: seq<string>): string {
    "[" + Items(ids) + "]"
  }

  // ---------------------------------------------------------------- reading

  function HexValue(c: char): Option<nat> {
    if '0' <= c <= '9' then Some(c as int - '0' as int)
    else if 'a' <= c <= 'f' then Some(c as int - 'a' as int + 10)
    else None
  }

  /** The character after a backslash and what follows it. */
  function ReadEscape(text: string): (r: Option<(char, string)>)
    ensures r.Some? ==> |r.value.1| < |text|
  {
    if text == "" then None
    else match text[0]
      case '"' => Some(('"', text[1..]))
      case '\\' => Some(('\\', text[1..]))
      case 'n' => Some(('\n', text[1..]))
      case 'r' => Some(('\r', text[1..]))
      case 't' => Some(('\t', text[1..]))
      case 'b' => Some((8 as char, text[1..]))
      case 'f' => Some((12 as char, text[1..]))
      case 'u' =>
        if |text| >= 5 && text[1] == '0' && text[2] == '0' && HexValue(text[3]).Some? && HexValue(text[4]).Some?
        then Some(((16 * HexValue(text[3]).value + HexValue(text[4]).value) as char, text[5..]))
        else None
      case _ => None
  }

  /** The rest of a string literal, after its opening quote. */
  function ReadString(text: string): (r: Option<(string, string)>)
    ensures r.Some? ==> |r.value.1| < |text|
    decreases |text|
  {
    if text == "" then None
    else if text[0] == '"' then Some(("", text[1..]))
    else if text[0] == '\\' then
      match ReadEscape(text[1..])
      case None => None
      case Some((c, rest)) =>
        (match ReadString(rest)
         case None => None
         case Some((s, rest')) => Some(([c] + s, rest')))
    else
      match ReadString(text[1..])
      case None => None
      case Some((s, rest)) => Some(([text[0]] + s, rest))
  }

  function ReadItems(text: string): Option<seq<string>>
    decreases |text|
  {
    if text == "" || text[0] != '"' then None
    else match ReadString(text[1..])
      case None => None
      case Some((s, rest)) =>
        if rest == "]" then Some([s])
        else if rest != "" && rest[0] == ',' then
          match ReadItems(rest[1..])
          case None => None
          case Some(ss) => Some([s] + ss)
        else None
  }

  /** `JSON.parse` on the texts this writer produces. */
  function Parse(text: string): Option<seq<string>> {
    if text == "[]" then Some([])
    else if text != "" && text[0] == '[' then ReadItems(text[1..])
    else None
  }

  lemma ReadsEscapedChar(c: char, rest: string)
    ensures var e := EscapeChar(c);
            if |e| == 1 then e == [c] && c != '"' && c != '\\'
            else e[0] == '\\' && ReadEscape(e[1..] + rest) == Some((c, rest))
  {
    var e := EscapeChar(c);
    if |e| == 6 {
      var n := c as int;
      assert HexValue(HEX[n / 16]) == Some(n / 16) && HexValue(HEX[n % 16]) == Some(n % 16);
      assert (e[1..] + rest)[5..] == rest;
    } else if |e| == 2 {
      assert (e[1..] + rest)[1..] == rest;
    }
  }

  lemma ReadPlain(c: char, tail: string)
    requires c != '"' && c != '\\' && ReadString(tail).Some?
    ensures ReadString([c] + tail) == Some(([c] + ReadString(tail).value.0, ReadString(tail).value.1))
  {
    assert ([c] + tail)[1..] == tail;
  }

  lemma ReadBehindBackslash(c: char, text: string, tail: string)
    requires ReadEscape(text) == Some((c, tail)) && ReadString(tail).Some?
    ensures ReadString(['\\'] + text) == Some(([c] + ReadString(tail).value.0, ReadString(tail).value.1))
  {
    assert (['\\'] + text)[1..] == text;
  }

  lemma ReadStep(c: char, tail: string)
    requires ReadString(tail).Some?
    ensures ReadString(EscapeChar(c) + tail) == Some(([c] + ReadString(tail).value.0, ReadString(tail).value.1))
  {
    var e := EscapeChar(c);
    ReadsEscapedChar(c, tail);
    if |e| == 1 {
      ReadPlain(c, tail);
    } else {
      ReadBehindBackslash(c, e[1..] + tail, tail);
      assert e == ['\\'] + e[1..];
      Assoc(['\\'], e[1..], tail);
    }
  }

  lemma {:induction false} ReadsString(s: string, rest: string)
    ensures ReadString(Escape(s) + ("\"" + rest)) == Some((s, rest))
  {
    var close := "\"" + rest;
    if s == "" {
      assert Escape(s) + close == close && close[1..] == rest;
    } else {
      ReadsString(s[1..], rest);
      ReadStep(s[0], Escape(s[1..]) + close);
      Assoc(EscapeChar(s[0]), Escape(s[1..]), close);
      assert s == [s[0]] + s[1..];
    }
  }

  /** One item and the rest of the list, as the reader meets them. */
  lemma ReadsItem(id: string, rest: string)
    ensures ReadItems(Quoted(id) + rest) ==
              if rest == "]" then Some([id])
              else if rest != "" && rest[0] == ',' then
                (match ReadItems(rest[1..]) case None => None case Some(ss) => Some([id] + ss))
              else None
  {
    var text, body := Quoted(id) + rest, Escape(id) + ("\"" + rest);
    Assoc("\"" + Escape(id), "\"", rest);
    Assoc("\"", Escape(id), "\"" + rest);
    assert text == "\"" + body;
    assert text[0] == '"' && text[1..] == body;
    ReadsString(id, rest);
    assert ReadString(text[1..]) == Some((id, rest));
  }

  /** The first item of a list and what is written after it, up to the closing bracket. */
  lemma ItemsSplit(ids: seq<string>, close: string)
    requires ids != []
    ensures Items(ids) + close == Quoted(ids[0]) + if |ids| == 1 then close else "," + (Items(ids[1..]) + close)
  {
    if |ids| > 1 {
      Assoc(Quoted(ids[0]), "," + Items(ids[1..]), close);
      Assoc(",", Items(ids[1..]), close);
    }
  }

  lemma Assoc(a: string, b: string, c: string)
    ensures a + b + c == a + (b + c)
  {}

  lemma ReadsLast(id: string)
    ensures ReadItems(Items([id]) + "]") == Some([id])
  {
    ReadsItem(id, "]");
  }

  lemma ReadsOneMore(id: string, rest: string, ids: seq<string>)
    requires ReadItems(rest) == Some(ids)
    ensures ReadItems(Quoted(id) + ("," + rest)) == Some([id] + ids)
  {
    ReadsItem(id, "," + rest);
    assert "," + rest != "]" && ("," + rest)[1..] == rest;
  }

  lemma ItemsOfMore(id: string, ids: seq<string>)
    requires |ids| > 0
    ensures Items([id] + ids) + "]" == Quoted(id) + ("," + (Items(ids) + "]"))
  {
    assert ([id] + ids)[1..] == ids;
    ItemsSplit([id] + ids, "]");
  }

  lemma {:induction false} ReadsItems(ids: seq<string>)
    requires |ids| > 0
    ensures ReadItems(Items(ids) + "]") == Some(ids)
  {
    if |ids| == 1 {
      ReadsLast(ids[0]);
      assert ids == [ids[0]];
    } else {
      ReadsItems(ids[1..]);
      ReadsOneMore(ids[0], Items(ids[1..]) + "]", ids[1..]);
      ItemsOfMore(ids[0], ids[1..]);
      assert ids == [ids[0]] + ids[1..];
    }
  }

  /** Whatever the ids contain, the reader returns exactly the list that was written. */
  lemma ParseInvertsStringify(ids: seq<string>)
    ensures Parse(Stringify(ids)) == Some(ids)
  {
    if ids != [] {
      ReadsItems(ids);
      Assoc("[", Items(ids), "]");
      assert Stringify(ids)[1..] == Items(ids) + "]";
      assert Items(ids)[0] == '"';
      assert Stringify(ids)[1] == '"';
    }
  }

  // ---------------------------------------------------------------- the substring query

  predicate MatchAt(text: string, pattern: string, i: int) {
    0 <= i && i + |pattern| <= |text| && forall k | 0 <= k < |pattern| :: text[i + k] == pattern[k]
  }

  /** `{ contains: pattern }` as exact substring. */
  predicate Contains(text: string, pattern: string) {
    exists i | 0 <= i <= |text| :: MatchAt(text, pattern, i)
  }

  /** An id that `JSON.stringify` writes as it is. */
  predicate Plain(s: string) {
    forall c | c in s :: c != '"' && c != '\\' && c >= ' '
  }

  /** A character stands for itself, or behind a backslash if it has a short form, or is written by its number. */
  lemma EscapesExactly(c: char)
    ensures var e := EscapeChar(c);
            var short := c == '"' || c == '\\' || c as int in [8, 9, 10, 12, 13];
            && (e == [c] <==> !short && c >= ' ')
            && (|e| == 2 && e[0] == '\\' <==> short)
            && (|e| == 6 && e[..4] == "\\u00" <==> !short && c < ' ')
  {}

  lemma {:induction false} PlainIsUnescaped(s: string)
    requires Plain(s)
    ensures Escape(s) == s
  {
    if s != "" {
      assert s[0] in s && forall c | c in s[1..] :: c in s;
      PlainIsUnescaped(s[1..]);
    }
  }

  /** A pattern that no match in `a + b` starts inside `a` occurs where it occurs in `b`. */
  lemma SkipPrefix(a: string, b: string, pattern: string)
    requires forall i | 0 <= i < |a| :: !MatchAt(a + b, pattern, i)
    ensures Contains(a + b, pattern) <==> Contains(b, pattern)
  {
    if i :| 0 <= i <= |a + b| && MatchAt(a + b, pattern, i) {
      forall k | 0 <= k < |pattern| ensures b[i - |a| + k] == pattern[k] { assert (a + b)[i + k] == pattern[k]; }
      assert MatchAt(b, pattern, i - |a|);
    }
    if j :| 0 <= j <= |b| && MatchAt(b, pattern, j) {
      forall k | 0 <= k < |pattern| ensures (a + b)[j + |a| + k] == pattern[k] { assert b[j + k] == pattern[k]; }
      assert MatchAt(a + b, pattern, j + |a|);
    }
  }

  /** No match of a quoted pattern starts on any other character. */
  lemma StartsOnQuote(text: string, q: string, i: int)
    requires 0 <= i < |text| && text[i] != '"'
    ensures !MatchAt(text, "\"" + q + "\"", i)
  {
    assert ("\"" + q + "\"")[0] == '"';
  }

  predicate EndsIn(s: string, tail: string) {
    |tail| <= |s| && s[|s| - |tail|..] == tail
  }

  /** What follows an opening quote reads as a plain `q` and a closing quote exactly when `q` was written. */
  lemma {:induction false} PrefixIsTheId(x: string, rest: string, q: string)
    requires Plain(q)
    ensures q + "\"" <= Escape(x) + ("\"" + rest) <==> q == x
    decreases |x|
  {
    var close := "\"" + rest;
    if x == "" {
      assert Escape(x) + close == close;
      PrefixOfClose(rest, q);
    } else {
      Assoc(EscapeChar(x[0]), Escape(x[1..]), close);
      HeadIsTheChar(x[0], Escape(x[1..]) + close, q);
      EqualByHead(x, q);
      if q != "" {
        assert forall c | c in q[1..] :: c in q;
        PrefixIsTheId(x[1..], rest, q[1..]);
      }
    }
  }

  lemma PrefixOfClose(rest: string, q: string)
    requires Plain(q)
    ensures q + "\"" <= "\"" + rest <==> q == ""
  {
    assert q != "" ==> q[0] in q && (q + "\"")[0] == q[0];
  }

  lemma EqualByHead(x: string, q: string)
    requires x != ""
    ensures q == x <==> q != "" && q[0] == x[0] && q[1..] == x[1..]
  {
    assert x == [x[0]] + x[1..];
    assert q != "" ==> q == [q[0]] + q[1..];
  }

  /** A plain `q` goes on from an escaped character exactly when it starts with that character, unescaped. */
  lemma HeadIsTheChar(c: char, tail: string, q: string)
    requires Plain(q)
    ensures q + "\"" <= EscapeChar(c) + tail <==> q != "" && q[0] == c && q[1..] + "\"" <= tail
  {
    var text, pattern := EscapeChar(c) + tail, q + "\"";
    ReadsEscapedChar(c, tail);
    if q == "" {
      assert pattern[0] == '"';
    } else {
      assert q[0] in q && pattern[0] == q[0] && pattern[1..] == q[1..] + "\"";
      assert text[0] == EscapeChar(c)[0];
      if |EscapeChar(c)| == 1 {
        assert text[1..] == tail;
        assert pattern == [q[0]] + (q[1..] + "\"") && text == [c] + tail;
      }
    }
  }

  lemma MatchAtStart(text: string, pattern: string)
    ensures MatchAt(text, pattern, 0) <==> pattern <= text
  {
    if MatchAt(text, pattern, 0) {
      forall k | 0 <= k < |pattern| ensures text[k] == pattern[k] { assert text[0 + k] == pattern[k]; }
    }
  }

  lemma MatchAtLiteral(x: string, rest: string, q: string)
    requires Plain(q)
    ensures MatchAt("\"" + (Escape(x) + ("\"" + rest)), "\"" + q + "\"", 0) <==> q == x
  {
    var text, pattern := "\"" + (Escape(x) + ("\"" + rest)), "\"" + q + "\"";
    PrefixIsTheId(x, rest, q);
    MatchAtStart(text, pattern);
    assert pattern == "\"" + (q + "\"");
    assert pattern[1..] == q + "\"" && text[1..] == Escape(x) + ("\"" + rest);
    assert pattern <= text <==> pattern[1..] <= text[1..];
  }

  /** Inside a literal the query is found only behind an escaped quote, and then up to the closing one. */
  lemma {:induction false} BodyContains(x: string, rest: string, q: string)
    requires Plain(q)
    ensures var pattern := "\"" + q + "\"";
            Contains(Escape(x) + ("\"" + rest), pattern) <==> EndsIn(x, "\"" + q) || Contains("\"" + rest, pattern)
    decreases |x|
  {
    var close := "\"" + rest;
    if x == "" {
      assert Escape(x) + close == close;
    } else {
      var tail := Escape(x[1..]) + close;
      Assoc(EscapeChar(x[0]), Escape(x[1..]), close);
      BodyContains(x[1..], rest, q);
      CharContains(x[0], x[1..], rest, q);
      EndsInSplits(x, q);
    }
  }

  lemma EndsInSplits(x: string, q: string)
    requires x != ""
    ensures EndsIn(x, "\"" + q) <==> EndsIn(x[1..], "\"" + q) || (x[0] == '"' && x[1..] == q)
  {
    if |x| == |q| + 1 {
      assert x == [x[0]] + x[1..] && "\"" + q == ['"'] + q;
      assert x[|x| - |"\"" + q|..] == x;
    } else if |x| > |q| + 1 {
      assert x[|x| - |"\"" + q|..] == x[1..][|x[1..]| - |"\"" + q|..];
    }
  }

  lemma CharInFront(c: char, tail: string, pattern: string)
    ensures Contains([c] + tail, pattern) <==> MatchAt([c] + tail, pattern, 0) || Contains(tail, pattern)
  {
    if !MatchAt([c] + tail, pattern, 0) { SkipPrefix([c], tail, pattern); }
    if j :| 0 <= j <= |tail| && MatchAt(tail, pattern, j) {
      forall k | 0 <= k < |pattern| ensures ([c] + tail)[j + 1 + k] == pattern[k] { assert tail[j + k] == pattern[k]; }
      assert MatchAt([c] + tail, pattern, j + 1);
    }
  }

  /** One escaped character in front adds a match only if it is a quote and the rest of the literal is `q`. */
  lemma CharContains(c: char, x: string, rest: string, q: string)
    requires Plain(q)
    ensures var pattern, tail := "\"" + q + "\"", Escape(x) + ("\"" + rest);
            Contains(EscapeChar(c) + tail, pattern) <==> (c == '"' && x == q) || Contains(tail, pattern)
  {
    var tail := Escape(x) + ("\"" + rest);
    if c == '"' {
      EscapedQuoteInFront(tail, q);
      MatchAtLiteral(x, rest, q);
    } else {
      NoQuoteInFront(EscapeChar(c), tail, q);
    }
  }

  lemma EscapedQuoteInFront(tail: string, q: string)
    ensures var pattern := "\"" + q + "\"";
            Contains(EscapeChar('"') + tail, pattern) <==> MatchAt("\"" + tail, pattern, 0) || Contains(tail, pattern)
  {
    var pattern, quoted := "\"" + q + "\"", ['"'] + tail;
    assert "\"" + tail == quoted && EscapeChar('"') + tail == ['\\'] + quoted;
    StartsOnQuote(['\\'] + quoted, q, 0);
    CharInFront('\\', quoted, pattern);
    CharInFront('"', tail, pattern);
  }

  lemma NoQuoteInFront(e: string, tail: string, q: string)
    requires '"' !in e
    ensures var pattern := "\"" + q + "\""; Contains(e + tail, pattern) <==> Contains(tail, pattern)
  {
    forall i | 0 <= i < |e| ensures !MatchAt(e + tail, "\"" + q + "\"", i) {
      assert (e + tail)[i] == e[i];
      StartsOnQuote(e + tail, q, i);
    }
    SkipPrefix(e, tail, "\"" + q + "\"");
  }

  /** A literal in front adds itself, and what it holds behind a quote, to what can be found. */
  lemma LiteralContains(x: string, rest: string, q: string)
    requires Plain(q)
    ensures var pattern := "\"" + q + "\"";
            Contains("\"" + (Escape(x) + ("\"" + rest)), pattern) <==> q == x || EndsIn(x, "\"" + q) || Contains("\"" + rest, pattern)
  {
    var pattern, body := "\"" + q + "\"", Escape(x) + ("\"" + rest);
    MatchAtLiteral(x, rest, q);
    BodyContains(x, rest, q);
    assert "\"" + body == ['"'] + body;
    CharInFront('"', body, pattern);
  }

  /** From a closing quote the only literal to be read is the separator itself. */
  lemma SeparatorContains(items: string, q: string)
    requires Plain(q) && items != "" && items[0] == '"'
    ensures var pattern := "\"" + q + "\"";
            Contains("\"," + items, pattern) <==> q == "," || Contains(items, pattern)
  {
    var text, pattern := "\"," + items, "\"" + q + "\"";
    StartsOnQuote(text, q, 1);
    if q == "," {
      assert MatchAt(text, pattern, 0);
    } else {
      NoLiteralAtSeparator(items, q);
      SkipPrefix("\",", items, pattern);
    }
  }

  lemma NoLiteralAtSeparator(items: string, q: string)
    requires Plain(q) && q != "," && items != "" && items[0] == '"'
    ensures !MatchAt("\"," + items, "\"" + q + "\"", 0)
  {
    var text, pattern := "\"," + items, "\"" + q + "\"";
    assert text[0 + 1] == ',' && text[0 + 2] == '"';
    if q == "" {
      assert pattern[1] == '"';
    } else if |q| == 1 {
      assert pattern[1] == q[0];
    } else {
      assert pattern[2] == q[1] && q[1] in q;
    }
  }

  /** A list, seen from the closing quote of its first id. */
  lemma ItemsOpen(ids: seq<string>)
    requires ids != []
    ensures Items(ids) == "\"" + (Escape(ids[0]) + ("\"" + if |ids| == 1 then "" else "," + Items(ids[1..])))
  {
    ItemsSplit(ids, "");
    var rest := if |ids| == 1 then "" else "," + Items(ids[1..]);
    assert Items(ids) + "" == Items(ids);
    if |ids| > 1 { assert Items(ids[1..]) + "" == Items(ids[1..]); }
    Assoc("\"" + Escape(ids[0]), "\"", rest);
    Assoc("\"", Escape(ids[0]), "\"" + rest);
  }

  lemma StartsWithQuote(ids: seq<string>)
    requires ids != []
    ensures Items(ids) != "" && Items(ids)[0] == '"'
  {
    assert Quoted(ids[0])[0] == '"';
  }

  lemma NothingInQuote(q: string)
    ensures !Contains("\"" + "", "\"" + q + "\"")
  {}

  /** Some id ends in a quote followed by `q`. */
  predicate SomeEndsIn(ids: seq<string>, q: string) {
    exists id | id in ids :: EndsIn(id, "\"" + q)
  }

  lemma {:induction false} ItemsContain(ids: seq<string>, q: string)
    requires Plain(q)
    ensures Contains(Items(ids), "\"" + q + "\"") <==> q in ids || (q == "," && |ids| >= 2) || SomeEndsIn(ids, q)
  {
    if ids != [] {
      assert ids == [ids[0]] + ids[1..];
      ItemsOpen(ids);
      if |ids| == 1 {
        LiteralContains(ids[0], "", q);
        NothingInQuote(q);
      } else {
        StartsWithQuote(ids[1..]);
        assert "\"" + ("," + Items(ids[1..])) == "\"," + Items(ids[1..]);
        LiteralContains(ids[0], "," + Items(ids[1..]), q);
        SeparatorContains(Items(ids[1..]), q);
        ItemsContain(ids[1..], q);
      }
    }
  }

  /** Brackets around a text add no match. */
  lemma BracketsContain(items: string, q: string)
    ensures Contains("[" + items + "]", "\"" + q + "\"") <==> Contains(items, "\"" + q + "\"")
  {
    var pattern, text := "\"" + q + "\"", items + "]";
    StartsOnQuote("[" + text, q, 0);
    SkipPrefix("[", text, pattern);
    assert "[" + items + "]" == "[" + text;
    if i :| 0 <= i <= |text| && MatchAt(text, pattern, i) {
      assert text[i + (|q| + 1)] == pattern[|q| + 1] == '"';
      forall k | 0 <= k < |pattern| ensures items[i + k] == pattern[k] { assert text[i + k] == pattern[k]; }
      assert MatchAt(items, pattern, i);
    }
    if j :| 0 <= j <= |items| && MatchAt(items, pattern, j) {
      forall k | 0 <= k < |pattern| ensures text[j + k] == pattern[k] { assert items[j + k] == pattern[k]; }
      assert MatchAt(text, pattern, j);
    }
  }

  /**
   * For an id written as it is, the query finds a row exactly when the id is in its list, or the id is
   * "," and the list has two ids or more, or some id of the list ends in a quote and then the id.
   */
  lemma QueryFindsExactly(ids: seq<string>, q: string)
    requires Plain(q)
    ensures Contains(Stringify(ids), "\"" + q + "\"") <==> q in ids || (q == "," && |ids| >= 2) || SomeEndsIn(ids, q)
  {
    ItemsContain(ids, q);
    BracketsContain(Items(ids), q);
  }

  /** In lists whose ids hold no quote, only "," is ever found without being there. */
  lemma QueryFindsMembersExactly(ids: seq<string>, q: string)
    requires Plain(q) && forall id | id in ids :: '"' !in id
    ensures Contains(Stringify(ids), "\"" + q + "\"") <==> q in ids || (q == "," && |ids| >= 2)
  {
    QueryFindsExactly(ids, q);
    forall id | id in ids && EndsIn(id, "\"" + q) ensures '"' in id { QuoteInSuffix(id, q); }
  }

  lemma QuoteInSuffix(id: string, q: string)
    requires EndsIn(id, "\"" + q)
    ensures '"' in id
  {
    assert id[|id| - |"\"" + q|..][0] == '"';
  }

  // ---------------------------------------------------------------- which ids the query can find

  function Quotes(s: string): nat {
    if s == "" then 0 else (if s[0] == '"' then 1 else 0) + Quotes(s[1..])
  }

  lemma {:induction false} QuotesOfConcat(s: string, t: string)
    ensures Quotes(s + t) == Quotes(s) + Quotes(t)
  {
    if s == "" {
      assert s + t == t;
    } else {
      QuotesOfConcat(s[1..], t);
      assert (s + t)[1..] == s[1..] + t;
    }
  }

  lemma {:induction false} NoQuotes(s: string)
    requires Quotes(s) == 0
    ensures '"' !in s
  {
    if s != "" {
      NoQuotes(s[1..]);
      assert s == [s[0]] + s[1..];
    }
  }

  lemma QuotesOfChar(c: char)
    ensures Quotes(EscapeChar(c)) == if c == '"' then 1 else 0
  {
    var e := EscapeChar(c);
    if |e| <= 2 {
      QuotesOfConcat(e[..1], e[1..]);
      assert e == e[..1] + e[1..];
      ShortQuotes(e[..1]);
      ShortQuotes(e[1..]);
    } else {
      assert forall d | d in e :: d != '"' by { assert HEX[c as int / 16] in HEX && HEX[c as int % 16] in HEX && '"' !in HEX; }
      WithoutQuotes(e);
    }
  }

  lemma ShortQuotes(s: string)
    requires |s| <= 1
    ensures Quotes(s) == if s == "\"" then 1 else 0
  {
    if s != "" { assert s[1..] == "" && s == [s[0]]; }
  }

  lemma {:induction false} WithoutQuotes(s: string)
    requires '"' !in s
    ensures Quotes(s) == 0
  {
    if s != "" {
      assert forall d | d in s[1..] :: d in s;
      WithoutQuotes(s[1..]);
    }
  }

  /** Escaping keeps the number of quotes, never shortens, and keeps the length of plain texts only. */
  lemma {:induction false} EscapeMeasures(s: string)
    ensures Quotes(Escape(s)) == Quotes(s)
    ensures |Escape(s)| >= |s| && (|Escape(s)| == |s| ==> Plain(s))
  {
    if s != "" {
      EscapeMeasures(s[1..]);
      QuotesOfChar(s[0]);
      QuotesOfConcat(EscapeChar(s[0]), Escape(s[1..]));
      assert s == [s[0]] + s[1..];
    }
  }

  lemma MatchSplits(text: string, pattern: string, i: nat) returns (pre: string, post: string)
    requires MatchAt(text, pattern, i)
    ensures text == pre + (pattern + post)
  {
    pre, post := text[..i], text[i + |pattern|..];
    var here := text[i..i + |pattern|];
    forall k | 0 <= k < |pattern| ensures here[k] == pattern[k] { assert text[i + k] == pattern[k]; }
    assert here == pattern;
    assert text == pre + (here + post);
  }

  /** A pattern with as many quotes as the text it is found in leaves none outside. */
  lemma AllQuotesMatched(text: string, pre: string, pattern: string, post: string)
    requires text == pre + (pattern + post) && Quotes(text) == Quotes(pattern)
    ensures '"' !in pre && '"' !in post
  {
    QuotesOfConcat(pre, pattern + post);
    QuotesOfConcat(pattern, post);
    NoQuotes(pre);
    NoQuotes(post);
  }

  lemma OneItem(q: string)
    ensures Stringify([q]) == "[" + ("\"" + (Escape(q) + ("\"" + "]")))
  {
    var e := Escape(q);
    assert Items([q]) == ("\"" + e) + "\"";
    Assoc("[", ("\"" + e) + "\"", "]");
    Assoc("\"" + e, "\"", "]");
    Assoc("\"", e, "\"" + "]");
  }

  /** A query that finds the list of its own id alone spans the whole literal. */
  lemma FoundAloneIsPlain(q: string)
    requires Contains(Stringify([q]), "\"" + q + "\"")
    ensures Plain(q)
  {
    var text, pattern := Stringify([q]), "\"" + q + "\"";
    var i: nat :| i <= |text| && MatchAt(text, pattern, i);
    var pre, post := MatchSplits(text, pattern, i);
    OneItem(q);
    EscapeMeasures(q);
    QuotesInText(q);
    AllQuotesMatched(text, pre, pattern, post);
    QuoteBounds(text, pre, pattern, post);
  }

  /** What stands before and after the quotes of a text ends before its first and begins after its last. */
  lemma QuoteBounds(text: string, pre: string, pattern: string, post: string)
    requires text == pre + (pattern + post) && '"' !in pre && '"' !in post
    requires |text| >= 2 && text[1] == '"' && text[|text| - 2] == '"'
    ensures |pre| <= 1 && |post| <= 1
  {}

  lemma QuotesInText(q: string)
    ensures Quotes("\"" + q + "\"") == 2 + Quotes(q)
    ensures Quotes("[" + ("\"" + (Escape(q) + ("\"" + "]")))) == 2 + Quotes(Escape(q))
  {
    QuotesOfConcat("\"" + q, "\"");
    QuotesOfConcat("\"", q);
    QuotesOfConcat("[", "\"" + (Escape(q) + ("\"" + "]")));
    QuotesOfConcat("\"", Escape(q) + ("\"" + "]"));
    QuotesOfConcat(Escape(q), "\"" + "]");
    QuotesOfConcat("\"", "]");
    assert "\""[1..] == "" && "]"[1..] == "" && "["[1..] == "";
  }

  /** The query finds an id in every list it belongs to exactly when JSON writes the id as it is. */
  lemma FoundWhereverItBelongsExactly(q: string)
    ensures (forall ids | q in ids :: Contains(Stringify(ids), "\"" + q + "\"")) <==> Plain(q)
  {
    if Plain(q) {
      forall ids | q in ids ensures Contains(Stringify(ids), "\"" + q + "\"") { QueryFindsExactly(ids, q); }
    } else {
      assert q in [q];
      if Contains(Stringify([q]), "\"" + q + "\"") { FoundAloneIsPlain(q); }
    }
  }

  /** The ids of the system are of that kind. */
  lemma UuidsArePlain(s: string)
    requires IsUuid(s)
    ensures Plain(s) && s != "" && s != "," && '"' !in s
  {
    forall c | c in s ensures c == '-' || IsHexDigit(c) {
      var i :| 0 <= i < |s| && s[i] == c;
    }
  }
}
