/**
  The `resource` parameter (RFC 8707): several values folded into one string
  and parsed back, with the escaping rules of JSON (RFC 8259, section 7).
*/
module ResourceIndicators {
  import opened Wrappers
  import opened PythonText

  /** An element of the decoded parameter: a string, or another JSON value with its `str()` rendering. */
  datatype Candidate = Str(text: string) | Rendered(text: string)

  /** `json.loads` on array texts that are not arrays of strings; `None` when it raises. */
  type OtherJson = string -> Option<seq<Candidate>>

  // ---- first-occurrence order ------------------------------------------------

  /** The texts without empty ones and without repetitions, in first-occurrence order. */
  function Distinct(texts: seq<string>): seq<string> {
    if texts == [] then []
    else Admit(Distinct(texts[..|texts| - 1]), texts[|texts| - 1])
  }

  function Admit(ordered: seq<string>, text: string): seq<string> {
    if text != "" && text !in ordered then ordered + [text] else ordered
  }

  /**
    What `Distinct` means: every result is the first occurrence of its value,
    results keep the order of those occurrences, and no non-empty text is lost.
  */
  lemma {:induction false} DistinctMeaning(texts: seq<string>) returns (at: seq<nat>)
    ensures var r := Distinct(texts);
      && |at| == |r|
      && (forall i :: 0 <= i < |r| ==>
            at[i] < |texts| && r[i] == texts[at[i]] && r[i] != "" && r[i] !in texts[..at[i]])
      && (forall i, j :: 0 <= i < j < |r| ==> at[i] < at[j])
      && (forall t :: t in texts && t != "" ==> t in r)
  {
    at := [];
    if texts != [] {
      var n := |texts| - 1;
      at := DistinctMeaning(texts[..n]);
      var before := Distinct(texts[..n]);
      forall i | 0 <= i < |before| ensures texts[..n][..at[i]] == texts[..at[i]] {}
      if texts[n] != "" && texts[n] !in before {
        at := at + [n];
        assert texts[n] !in texts[..n];
      }
      assert texts == texts[..n] + [texts[n]];
    }
  }

  lemma DistinctOfNone()
    ensures Distinct([]) == []
  {
  }

  lemma {:induction false} DistinctFixed(texts: seq<string>)
    requires "" !in texts
    requires forall i, j :: 0 <= i < j < |texts| ==> texts[i] != texts[j]
    ensures Distinct(texts) == texts
  {
    if texts != [] {
      var n := |texts| - 1;
      DistinctFixed(texts[..n]);
      assert texts == texts[..n] + [texts[n]];
    }
  }

  function TextOf(c: Candidate): string {
    match c
    case Str(text) => Strip(text)
    case Rendered(text) => text
  }

  function Texts(candidates: seq<Candidate>): seq<string> {
    seq(|candidates|, i requires 0 <= i < |candidates| => TextOf(candidates[i]))
  }

  function Strings(values: seq<string>): seq<Candidate> {
    seq(|values|, i requires 0 <= i < |values| => Str(values[i]))
  }

  /** The list a client means: stripped, without empties, each value once. */
  function Cleaned(values: seq<string>): seq<string> {
    Distinct(Texts(Strings(values)))
  }

  // ---- encoding --------------------------------------------------------------

  function HexDigit(n: int): char
    requires 0 <= n < 16
  {
    if n < 10 then '0' + n as char else 'a' + (n - 10) as char
  }

  function Escape(c: char): string {
    if c == '\"' then "\\\""
    else if c == '\\' then "\\\\"
    else if c == '\n' then "\\n"
    else if c == '\r' then "\\r"
    else if c == '\t' then "\\t"
    else if c as int == 8 then "\\b"
    else if c as int == 12 then "\\f"
    else if c < ' ' then "\\u00" + [HexDigit(c as int / 16), HexDigit(c as int % 16)]
    else [c]
  }

  function EscapeAll(s: string): string {
    if s == "" then "" else Escape(s[0]) + EscapeAll(s[1..])
  }

  function Quote(s: string): string {
    "\"" + EscapeAll(s) + "\""
  }

  /** The elements of a compact array up to its closing bracket. */
  function Items(values: seq<string>): string
    requires values != []
  {
    if |values| == 1 then Quote(values[0]) + "]" else Quote(values[0]) + "," + Items(values[1..])
  }

  /** `encode_resource_parameter` */
  function Encode(values: seq<string>): string {
    var ordered := Cleaned(values);
    if |ordered| == 0 then ""
    else if |ordered| == 1 then ordered[0]
    else "[" + Items(ordered)
  }

  // ---- decoding --------------------------------------------------------------

  function HexValue(c: char): (r: Option<int>)
    ensures r.Some? ==> 0 <= r.value < 16
  {
    if '0' <= c <= '9' then Some(c as int - '0' as int)
    else if 'a' <= c <= 'f' then Some(c as int - 'a' as int + 10)
    else if 'A' <= c <= 'F' then Some(c as int - 'A' as int + 10)
    else None
  }

  /** The UTF-16 unit written by the four hexadecimal digits at the head of `t`. */
  function HexUnit(t: string): (r: Option<int>)
    ensures r.Some? ==> |t| >= 4 && 0 <= r.value < 0x1_0000
  {
    if |t| < 4 then None
    else
      match (HexValue(t[0]), HexValue(t[1]), HexValue(t[2]), HexValue(t[3]))
      case (Some(a), Some(b), Some(c), Some(d)) => Some(((a * 16 + b) * 16 + c) * 16 + d)
      case _ => None
  }

  /**
    A `\u` escape, surrogate pairs joined. A lone surrogate is not a character
    of this model: the text is then left to `OtherJson`.
  */
  function ReadUnicode(t: string): (r: Option<(char, string)>)
    ensures r.Some? ==> |r.value.1| + 4 <= |t|
  {
    match HexUnit(t)
    case None => None
    case Some(unit) =>
      if 0xD800 <= unit < 0xDC00 then
        if |t| >= 6 && t[4] == '\\' && t[5] == 'u' then
          match HexUnit(t[6..])
          case Some(low) =>
            if 0xDC00 <= low < 0xE000
            then Some(((0x10000 + (unit - 0xD800) * 0x400 + (low - 0xDC00)) as char, t[10..]))
            else None
          case None => None
        else None
      else if 0xDC00 <= unit < 0xE000 then None
      else Some((unit as char, t[4..]))
  }

  /** One character of a JSON string body, and what follows it. */
  function ReadOne(t: string): (r: Option<(char, string)>)
    requires t != "" && t[0] != '\"'
    ensures r.Some? ==> |r.value.1| < |t|
  {
    if t[0] == '\\' then
      if |t| < 2 then None
      else if t[1] in "\"\\/" then Some((t[1], t[2..]))
      else if t[1] == 'b' then Some((8 as char, t[2..]))
      else if t[1] == 'f' then Some((12 as char, t[2..]))
      else if t[1] == 'n' then Some(('\n', t[2..]))
      else if t[1] == 'r' then Some(('\r', t[2..]))
      else if t[1] == 't' then Some(('\t', t[2..]))
      else if t[1] == 'u' then ReadUnicode(t[2..])
      else None
    else if t[0] < ' ' then None
    else Some((t[0], t[1..]))
  }

  /** A JSON string after its opening quote: its value and what follows the closing quote. */
  function ReadString(t: string): (r: Option<(string, string)>)
    ensures r.Some? ==> |r.value.0| + |r.value.1| < |t|
  {
    if t == "" then None
    else if t[0] == '\"' then Some(("", t[1..]))
    else
      match ReadOne(t)
      case None => None
      case Some((c, rest)) =>
        match ReadString(rest)
        case None => None
        case Some((s, after)) => Some(([c] + s, after))
  }

  function SkipBlank(t: string): (r: string)
    ensures |r| <= |t|
  {
    if t != "" && t[0] in " \t\n\r" then SkipBlank(t[1..]) else t
  }

  /** The elements of an array of strings, from the first opening quote on. */
  function ReadItems(t: string): (r: Option<(seq<string>, string)>)
    ensures r.Some? ==> forall v :: v in r.value.0 ==> |v| < |t|
    decreases |t|
  {
    if t == "" || t[0] != '\"' then None
    else
      match ReadString(t[1..])
      case None => None
      case Some((s, rest)) =>
        var after := SkipBlank(rest);
        if after == "" then None
        else if after[0] == ']' then Some(([s], after[1..]))
        else if after[0] == ',' then
          match ReadItems(SkipBlank(after[1..]))
          case None => None
          case Some((more, tail)) => Some(([s] + more, tail))
        else None
  }

  /** `json.loads` of an array of strings; `None` on any other text. */
  function DecodeStrings(raw: string): (r: Option<seq<string>>)
    ensures r.Some? ==> forall v :: v in r.value ==> |v| < |raw|
  {
    if raw == "" || raw[0] != '[' then None
    else
      var body := SkipBlank(raw[1..]);
      if body != "" && body[0] == ']' then
        if SkipBlank(body[1..]) == "" then Some([]) else None
      else
        match ReadItems(body)
        case None => None
        case Some((items, tail)) => if SkipBlank(tail) == "" then Some(items) else None
  }

  /** The list `json.loads` gives for a text that starts with a bracket. */
  function Decode(raw: string, other: OtherJson): Option<seq<Candidate>> {
    match DecodeStrings(raw)
    case Some(items) => Some(Strings(items))
    case None => other(raw)
  }

  function Candidates(raw: string, other: OtherJson): seq<Candidate>
    requires raw != ""
  {
    if raw[0] == '[' then
      match Decode(raw, other)
      case Some(list) => list
      case None => [Str(raw)]
    else [Str(raw)]
  }

  /** `parse_resource_parameter`, as a value. */
  function Parsed(value: string, other: OtherJson): seq<string> {
    var raw := Strip(value);
    if raw == "" then [] else Distinct(Texts(Candidates(raw, other)))
  }

  method ParseResourceParameter(value: string, other: OtherJson) returns (ordered: seq<string>)
    ensures ordered == Parsed(value, other)
  {
    hide Strip, Candidates, Decode, TextOf;
    var raw := Strip(value);
    ordered := [];
    if raw == "" {
      return;
    }
    var candidates := Candidates(raw, other);
    ghost var texts := Texts(candidates);
    for i := 0 to |candidates|
      invariant ordered == Distinct(texts[..i])
    {
      var text := TextOf(candidates[i]);
      if text != "" && text !in ordered {
        ordered := ordered + [text];
      }
      assert texts[..i + 1][..i] == texts[..i];
    }
    assert texts[..|candidates|] == texts;
  }

  // ---- what the decoder accepts -------------------------------------------------

  /** The character a one-letter escape stands for. */
  function ShortEscape(letter: char): Option<char> {
    match letter
    case '\"' => Some('\"')
    case '\\' => Some('\\')
    case '/' => Some('/')
    case 'b' => Some(8 as char)
    case 'f' => Some(12 as char)
    case 'n' => Some('\n')
    case 'r' => Some('\r')
    case 't' => Some('\t')
    case _ => None
  }

  /** The digit is worth `n`, in either case. */
  predicate IsHex(digit: char, n: int) {
    || (0 <= n < 10 && digit as int == '0' as int + n)
    || (10 <= n < 16 && (digit as int == 'a' as int + n - 10 || digit as int == 'A' as int + n - 10))
  }

  /** The text is `\u` and four hexadecimal digits worth `unit`. */
  ghost predicate WritesUnit(text: string, unit: int) {
    && |text| == 6 && text[0] == '\\' && text[1] == 'u'
    && exists a, b, c, d ::
         IsHex(text[2], a) && IsHex(text[3], b) && IsHex(text[4], c) && IsHex(text[5], d)
         && unit == a * 4096 + b * 256 + c * 16 + d
  }

  /**
    The spellings of a character in a JSON string: itself unless it is a control
    character, a quote or a backslash, a one-letter escape, one UTF-16 unit, or
    two for a character beyond the first plane.
  */
  ghost predicate Spells(text: string, c: char) {
    || (text == [c] && c >= ' ' && c != '\"' && c != '\\')
    || (|text| == 2 && text[0] == '\\' && ShortEscape(text[1]) == Some(c))
    || WritesUnit(text, c as int)
    || (|text| == 12 && c as int >= 0x10000
        && WritesUnit(text[..6], 0xD800 + (c as int - 0x10000) / 0x400)
        && WritesUnit(text[6..], 0xDC00 + (c as int - 0x10000) % 0x400))
  }

  lemma HexMeaning(digit: char, n: int)
    ensures HexValue(digit) == Some(n) <==> IsHex(digit, n)
  {
  }

  lemma UnitIff(text: string, rest: string, unit: int)
    requires |text| == 6 && text[0] == '\\' && text[1] == 'u'
    ensures HexUnit(text[2..] + rest) == Some(unit) <==> WritesUnit(text, unit)
  {
    hide HexValue, IsHex;
    var t := text[2..] + rest;
    assert t[0] == text[2] && t[1] == text[3] && t[2] == text[4] && t[3] == text[5];
    if HexUnit(t) == Some(unit) {
      var a, b, c, d := HexValue(t[0]).value, HexValue(t[1]).value, HexValue(t[2]).value, HexValue(t[3]).value;
      HexMeaning(text[2], a);
      HexMeaning(text[3], b);
      HexMeaning(text[4], c);
      HexMeaning(text[5], d);
      assert unit == a * 4096 + b * 256 + c * 16 + d;
    }
    if WritesUnit(text, unit) {
      var a, b, c, d :| IsHex(text[2], a) && IsHex(text[3], b) && IsHex(text[4], c) && IsHex(text[5], d)
                        && unit == a * 4096 + b * 256 + c * 16 + d;
      HexMeaning(text[2], a);
      HexMeaning(text[3], b);
      HexMeaning(text[4], c);
      HexMeaning(text[5], d);
    }
  }

  lemma UnitIsUnique(text: string, u: int, v: int)
    requires WritesUnit(text, u) && WritesUnit(text, v)
    ensures u == v && 0 <= u < 0x1_0000
  {
    UnitIff(text, "", u);
    UnitIff(text, "", v);
  }

  /** No text that begins with a quote spells a character, and spellings are prefix-free enough to be read one by one. */
  lemma ReadSpelled(text: string, c: char, rest: string)
    requires Spells(text, c)
    ensures text != "" && text[0] != '\"' && ReadOne(text + rest) == Some((c, rest))
  {
    hide HexUnit, WritesUnit;
    var t := text + rest;
    assert t[|text|..] == rest;
    if WritesUnit(text, c as int) {
      ReadUnit(text, c as int, rest);
      assert t[2..] == text[2..] + rest && t[2..][4..] == rest;
      CharIsNoSurrogate(c);
    } else if |text| == 12 {
      var high, low := 0xD800 + (c as int - 0x10000) / 0x400, 0xDC00 + (c as int - 0x10000) % 0x400;
      ReadUnit(text[..6], high, text[6..] + rest);
      ReadUnit(text[6..], low, rest);
      assert t[2..] == text[..6][2..] + (text[6..] + rest);
      assert t[2..][6..] == text[6..][2..] + rest && t[2..][10..] == rest;
      assert 0x10000 + (high - 0xD800) * 0x400 + (low - 0xDC00) == c as int;
    } else if |text| == 2 {
      assert t[2..] == rest;
    }
  }

  lemma CharIsNoSurrogate(c: char)
    ensures !(0xD800 <= c as int < 0xE000) && c as int < 0x11_0000
  {
  }

  lemma ReadUnit(text: string, unit: int, rest: string)
    requires WritesUnit(text, unit)
    ensures |text| == 6 && text[0] == '\\' && text[1] == 'u'
    ensures 0 <= unit < 0x1_0000 && HexUnit(text[2..] + rest) == Some(unit)
  {
    UnitIff(text, rest, unit);
  }

  /** Whatever is read as a character was a spelling of it. */
  lemma SpelledWhenRead(t: string, c: char, rest: string) returns (text: string)
    requires t != "" && t[0] != '\"' && ReadOne(t) == Some((c, rest))
    ensures t == text + rest && Spells(text, c)
  {
    hide HexUnit, WritesUnit;
    text := t[..|t| - |rest|];
    if t[0] != '\\' {
      assert text == [c] && rest == t[1..];
    } else if t[1] != 'u' {
      assert |text| == 2 && rest == t[2..];
    } else {
      var unit := HexUnit(t[2..]).value;
      UnitIff(t[..6], t[6..], unit);
      assert t[..6][2..] + t[6..] == t[2..];
      if 0xD800 <= unit < 0xDC00 {
        var low := HexUnit(t[2..][6..]).value;
        UnitIff(t[6..12], t[12..], low);
        assert t[6..12][2..] + t[12..] == t[2..][6..];
        assert rest == t[12..] && text[..6] == t[..6] && text[6..] == t[6..12];
        assert (c as int - 0x10000) / 0x400 == unit - 0xD800 && (c as int - 0x10000) % 0x400 == low - 0xDC00;
      } else {
        assert rest == t[6..] && text == t[..6];
      }
    }
  }

  function Concat(texts: seq<string>): string {
    if texts == [] then "" else texts[0] + Concat(texts[1..])
  }

  /** The texts spell the characters of a string, one by one. */
  ghost predicate SpellsAll(texts: seq<string>, s: string) {
    |texts| == |s| && forall i :: 0 <= i < |s| ==> Spells(texts[i], s[i])
  }

  lemma {:induction false} ReadSpelledString(texts: seq<string>, s: string, rest: string)
    requires SpellsAll(texts, s)
    ensures ReadString(Concat(texts) + "\"" + rest) == Some((s, rest))
    decreases |s|
  {
    hide ReadOne, Spells;
    var t := Concat(texts) + "\"" + rest;
    if s == "" {
      assert t[1..] == rest;
    } else {
      var tail := Concat(texts[1..]) + "\"" + rest;
      assert t == texts[0] + tail;
      ReadSpelled(texts[0], s[0], tail);
      ReadSpelledString(texts[1..], s[1..], rest);
      assert t[0] == texts[0][0];
      assert [s[0]] + s[1..] == s;
    }
  }

  lemma {:induction false} SpelledStringWhenRead(t: string, s: string, rest: string) returns (texts: seq<string>)
    requires ReadString(t) == Some((s, rest))
    ensures SpellsAll(texts, s) && t == Concat(texts) + "\"" + rest
    decreases |t|
  {
    hide ReadOne, Spells;
    texts := [];
    if t[0] != '\"' {
      var (c, tail) := ReadOne(t).value;
      var text := SpelledWhenRead(t, c, tail);
      var more := SpelledStringWhenRead(tail, s[1..], rest);
      texts := [text] + more;
      assert texts[1..] == more;
      assert t == text + (Concat(more) + "\"" + rest);
    } else {
      assert t == "\"" + rest;
    }
  }

  predicate IsGap(gap: string) {
    forall c :: c in gap ==> c in " \t\n\r"
  }

  lemma {:induction false} SkipGap(gap: string, t: string)
    requires IsGap(gap) && (t == "" || t[0] !in " \t\n\r")
    ensures SkipBlank(gap + t) == t
  {
    if gap == "" {
      assert gap + t == t;
    } else {
      assert (gap + t)[1..] == gap[1..] + t;
      SkipGap(gap[1..], t);
    }
  }

  lemma {:induction false} GapWhenSkipped(t: string) returns (gap: string)
    ensures IsGap(gap) && t == gap + SkipBlank(t)
    ensures SkipBlank(t) == "" || SkipBlank(t)[0] !in " \t\n\r"
  {
    gap := "";
    if t != "" && t[0] in " \t\n\r" {
      gap := GapWhenSkipped(t[1..]);
      gap := [t[0]] + gap;
    }
  }

  /** One element as written: the spellings of its characters, the gap after it, and the gap before the next. */
  datatype Item = Item(texts: seq<string>, after: string, before: string)

  function WrittenItems(items: seq<Item>, tail: string): string
    requires items != []
  {
    "\"" + Concat(items[0].texts) + "\"" + items[0].after
    + if |items| == 1 then "]" + tail else "," + items[0].before + WrittenItems(items[1..], tail)
  }

  ghost predicate Fits(items: seq<Item>, values: seq<string>) {
    && |items| == |values|
    && forall i :: 0 <= i < |items| ==> SpellsAll(items[i].texts, values[i]) && IsGap(items[i].after) && IsGap(items[i].before)
  }

  /** One turn of the decoder. */
  lemma ItemsStep(t: string)
    ensures ReadItems(t)
      == if t == "" || t[0] != '\"' || ReadString(t[1..]) == None then None
         else
           var (s, rest) := ReadString(t[1..]).value;
           var after := SkipBlank(rest);
           if after == "" then None
           else if after[0] == ']' then Some(([s], after[1..]))
           else if after[0] != ',' then None
           else
             match ReadItems(SkipBlank(after[1..]))
             case None => None
             case Some((more, tail)) => Some(([s] + more, tail))
  {
  }

  /** One element as written, and what follows its gap. */
  lemma WrittenStep(items: seq<Item>, tail: string)
    requires items != []
    ensures WrittenItems(items, tail)
      == "\"" + (Concat(items[0].texts) + "\"" + (items[0].after + AfterItem(items, tail)))
  {
    hide Concat;
    var a, b, c := Concat(items[0].texts), items[0].after, AfterItem(items, tail);
    assert "\"" + a + "\"" + b + c == "\"" + (a + "\"" + (b + c));
  }

  function AfterItem(items: seq<Item>, tail: string): string
    requires items != []
  {
    if |items| == 1 then "]" + tail else "," + items[0].before + WrittenItems(items[1..], tail)
  }

  lemma {:induction false} ReadWrittenItems(items: seq<Item>, values: seq<string>, tail: string)
    requires items != [] && Fits(items, values)
    ensures ReadItems(WrittenItems(items, tail)) == Some((values, tail))
    decreases |items|
  {
    hide SpellsAll, IsGap, ReadString, SkipBlank, Concat, ReadItems, WrittenItems;
    var t, more := WrittenItems(items, tail), AfterItem(items, tail);
    var rest := items[0].after + more;
    WrittenStep(items, tail);
    ItemsStep(t);
    assert t[1..] == Concat(items[0].texts) + "\"" + rest;
    ReadSpelledString(items[0].texts, values[0], rest);
    SkipGap(items[0].after, more);
    if |items| == 1 {
      assert more[1..] == tail && values == [values[0]];
    } else {
      var next := WrittenItems(items[1..], tail);
      ItemsBeginWithQuote(items[1..], tail);
      assert more[1..] == items[0].before + next;
      SkipGap(items[0].before, next);
      ReadWrittenItems(items[1..], values[1..], tail);
      assert values == [values[0]] + values[1..];
    }
  }

  lemma {:induction false} WrittenItemsWhenRead(t: string, values: seq<string>, tail: string) returns (items: seq<Item>)
    requires ReadItems(t) == Some((values, tail))
    ensures items != [] && Fits(items, values) && t == WrittenItems(items, tail)
    decreases |t|
  {
    hide SpellsAll, IsGap, ReadString, SkipBlank, Concat, ReadItems, WrittenItems, Fits;
    ItemsStep(t);
    var (s, rest) := ReadString(t[1..]).value;
    var texts := SpelledStringWhenRead(t[1..], s, rest);
    var after := GapWhenSkipped(rest);
    var more := SkipBlank(rest);
    if more[0] == ']' {
      items := [Item(texts, after, "")];
      NoGap();
      FitsOneMore(items[0], [], values);
      assert items == [items[0]] + [];
      assert AfterItem(items, tail) == "]" + tail == more;
    } else {
      var before := GapWhenSkipped(more[1..]);
      var next := SkipBlank(more[1..]);
      var others := WrittenItemsWhenRead(next, values[1..], tail);
      items := [Item(texts, after, before)] + others;
      assert items[1..] == others;
      FitsOneMore(items[0], others, values);
      assert AfterItem(items, tail) == "," + before + next == more;
    }
    WrittenStep(items, tail);
    QuotedAround(t, Concat(texts), rest);
  }

  lemma FitsOneMore(item: Item, others: seq<Item>, values: seq<string>)
    requires values != [] && SpellsAll(item.texts, values[0]) && IsGap(item.after) && IsGap(item.before)
    requires if others == [] then |values| == 1 else Fits(others, values[1..])
    ensures Fits([item] + others, values)
  {
    hide SpellsAll, IsGap;
  }

  lemma QuotedAround(t: string, body: string, rest: string)
    requires t != "" && t[0] == '\"' && t[1..] == body + "\"" + rest
    ensures t == "\"" + (body + "\"" + rest)
  {
  }

  lemma NoGap()
    ensures IsGap("")
  {
  }

  /** A JSON array of strings as written, with its outer gaps. */
  datatype Layout = Layout(open: string, items: seq<Item>, close: string)

  function Written(layout: Layout): string {
    "[" + layout.open + if layout.items == [] then "]" + layout.close else WrittenItems(layout.items, layout.close)
  }

  ghost predicate IsLayoutOf(layout: Layout, values: seq<string>) {
    IsGap(layout.open) && IsGap(layout.close) && Fits(layout.items, values)
  }

  /** The decoder accepts exactly the JSON arrays of strings, in every spelling and layout, as the strings they spell. */
  lemma DecodesIff(raw: string, values: seq<string>)
    ensures DecodeStrings(raw) == Some(values) <==> exists layout :: IsLayoutOf(layout, values) && raw == Written(layout)
  {
    hide SkipBlank, IsGap, ReadItems, Fits, WrittenItems;
    if DecodeStrings(raw) == Some(values) {
      var layout := LayoutWhenDecoded(raw, values);
      assert IsLayoutOf(layout, values);
    }
    forall layout | IsLayoutOf(layout, values) && raw == Written(layout) ensures DecodeStrings(raw) == Some(values) {
      DecodeWritten(layout, values);
    }
  }

  lemma DecodeWritten(layout: Layout, values: seq<string>)
    requires IsLayoutOf(layout, values)
    ensures DecodeStrings(Written(layout)) == Some(values)
  {
    hide SkipBlank, IsGap, ReadItems, WrittenItems;
    var raw := Written(layout);
    assert layout.close + "" == layout.close;
    SkipGap(layout.close, "");
    if layout.items == [] {
      var body := "]" + layout.close;
      assert raw[1..] == layout.open + body && body[1..] == layout.close;
      SkipGap(layout.open, body);
    } else {
      var body := WrittenItems(layout.items, layout.close);
      ItemsBeginWithQuote(layout.items, layout.close);
      assert raw[1..] == layout.open + body;
      SkipGap(layout.open, body);
      ReadWrittenItems(layout.items, values, layout.close);
    }
  }

  lemma ItemsBeginWithQuote(items: seq<Item>, tail: string)
    requires items != []
    ensures WrittenItems(items, tail) != "" && WrittenItems(items, tail)[0] == '\"'
  {
  }

  lemma WrittenForm(open: string, items: seq<Item>, close: string)
    ensures items == [] ==> Written(Layout(open, items, close)) == "[" + (open + ("]" + close))
    ensures items != [] ==> Written(Layout(open, items, close)) == "[" + (open + WrittenItems(items, close))
  {
    hide WrittenItems;
  }

  lemma LayoutWhenDecoded(raw: string, values: seq<string>) returns (layout: Layout)
    requires DecodeStrings(raw) == Some(values)
    ensures IsLayoutOf(layout, values) && raw == Written(layout)
  {
    hide SkipBlank, IsGap, ReadItems, WrittenItems, Written, SpellsAll;
    var open := GapWhenSkipped(raw[1..]);
    var body := SkipBlank(raw[1..]);
    assert raw == "[" + (open + body);
    ItemsStep("");
    if body[0] == ']' {
      var close := GapWhenSkipped(body[1..]);
      assert body == "]" + close;
      layout := Layout(open, [], close);
      WrittenForm(open, [], close);
    } else {
      var (items, tail) := ReadItems(body).value;
      var written := WrittenItemsWhenRead(body, items, tail);
      var close := GapWhenSkipped(tail);
      assert tail == close;
      layout := Layout(open, written, close);
      WrittenForm(open, written, close);
    }
  }

  // ---- the round trip --------------------------------------------------------

  lemma {:induction false} ReadEscapedChar(c: char, rest: string)
    ensures var t := Escape(c) + rest;
      t[0] != '\"' && ReadOne(t) == Some((c, rest))
  {
    var t := Escape(c) + rest;
    var n := c as int;
    if c < ' ' && c !in "\n\r\t" && n != 8 && n != 12 {
      assert t[2..] == ['0', '0', HexDigit(n / 16), HexDigit(n % 16)] + rest;
      assert HexUnit(t[2..]) == Some(n);
      assert t[2..][4..] == rest;
    } else if |Escape(c)| == 2 {
      assert t[2..] == rest;
    } else {
      assert t[1..] == rest;
    }
  }

  lemma {:induction false} ReadEscaped(s: string, rest: string)
    ensures ReadString(EscapeAll(s) + "\"" + rest) == Some((s, rest))
  {
    if s == "" {
      assert (EscapeAll(s) + "\"" + rest)[1..] == rest;
    } else {
      var tail := EscapeAll(s[1..]) + "\"" + rest;
      assert EscapeAll(s) + "\"" + rest == Escape(s[0]) + tail;
      ReadEscapedChar(s[0], tail);
      ReadEscaped(s[1..], rest);
      assert [s[0]] + s[1..] == s;
    }
  }

  lemma {:induction false} ReadQuoted(s: string, rest: string)
    ensures var t := Quote(s) + rest;
      t[0] == '\"' && ReadString(t[1..]) == Some((s, rest))
  {
    hide ReadString, EscapeAll;
    ReadEscaped(s, rest);
    assert (Quote(s) + rest)[1..] == EscapeAll(s) + "\"" + rest;
  }

  lemma ReadItem(t: string, v: string, rest: string)
    requires t != "" && t[0] == '\"' && ReadString(t[1..]) == Some((v, rest))
    requires rest != "" && rest[0] in ",]"
    requires |rest| > 1 ==> rest[1] == '\"'
    ensures rest[0] == ']' ==> ReadItems(t) == Some(([v], rest[1..]))
    ensures rest[0] == ',' && ReadItems(rest[1..]).Some? ==>
      ReadItems(t) == Some(([v] + ReadItems(rest[1..]).value.0, ReadItems(rest[1..]).value.1))
  {
    assert SkipBlank(rest) == rest;
    assert SkipBlank(rest[1..]) == rest[1..];
  }

  lemma {:induction false} ReadEncodedItems(values: seq<string>)
    requires values != []
    ensures ReadItems(Items(values)) == Some((values, ""))
    decreases |values|
  {
    hide ReadItems, ReadString, SkipBlank, EscapeAll, Escape;
    var v := values[0];
    if |values| == 1 {
      ReadQuoted(v, "]");
      assert "]"[1..] == "" && "]"[0] == ']';
      ReadItem(Items(values), v, "]");
      assert values == [v];
    } else {
      var more := Items(values[1..]);
      var t := Quote(v) + ("," + more);
      assert Items(values) == t;
      assert ("," + more)[1..] == more && more[0] == '\"';
      ReadQuoted(v, "," + more);
      ReadEncodedItems(values[1..]);
      ReadItem(t, v, "," + more);
      assert values == [v] + values[1..];
    }
  }

  /** Every array the encoder writes is decoded to exactly the list it was given. */
  lemma DecodeEncodedArray(values: seq<string>)
    requires values != []
    ensures DecodeStrings("[" + Items(values)) == Some(values)
  {
    hide ReadItems, Quote;
    var body := Items(values);
    ReadEncodedItems(values);
    ItemsStartWithQuote(values);
    assert ("[" + body)[1..] == body && SkipBlank(body) == body;
  }

  lemma ItemsStartWithQuote(values: seq<string>)
    requires values != []
    ensures Items(values) != "" && Items(values)[0] == '\"'
  {
  }

  lemma {:induction false} ItemsEndWithBracket(values: seq<string>)
    requires values != []
    ensures var t := Items(values); t != "" && t[|t| - 1] == ']'
    decreases |values|
  {
    if |values| > 1 {
      ItemsEndWithBracket(values[1..]);
    }
  }

  /** Values that survive cleaning are distinct, non-empty and already stripped. */
  lemma CleanedValues(values: seq<string>)
    ensures var r := Cleaned(values);
      && "" !in r
      && (forall v :: v in r ==> Trimmed(v))
      && (forall i, j :: 0 <= i < j < |r| ==> r[i] != r[j])
      && Texts(Strings(r)) == r
  {
    var r := Cleaned(values);
    var texts := Texts(Strings(values));
    var at := DistinctMeaning(texts);
    forall i, j | 0 <= i < j < |r| ensures r[i] != r[j] {
      assert texts[..at[j]][at[i]] == r[i];
    }
    forall i | 0 <= i < |r| ensures Strip(r[i]) == r[i] {
      StripTrimmed(r[i]);
    }
  }

  /**
    The codec's law, for every list of strings: parsing the encoding gives the
    cleaned list, unless a sole surviving value is itself the text of a JSON
    array. The proviso on `other` says that decoding a text never yields just
    that text.
  */
  lemma RoundTripIff(values: seq<string>, other: OtherJson)
    requires forall raw :: other(raw).Some? ==> Distinct(Texts(other(raw).value)) != [raw]
    ensures var r := Cleaned(values);
      Parsed(Encode(values), other) == r
      <==> !(|r| == 1 && "[" <= r[0] && Decode(r[0], other).Some?)
  {
    hide Strip, Items, DecodeStrings, Distinct, Texts;
    var r := Cleaned(values);
    CleanedValues(values);
    if |r| == 1 {
      assert r[0] in r;
      StripTrimmed(r[0]);
      SoleValue(r[0], other);
    } else if |r| > 1 {
      var text := "[" + Items(r);
      ItemsEndWithBracket(r);
      StripTrimmed(text);
      DecodeEncodedArray(r);
      DistinctFixed(r);
    }
  }

  lemma SoleValue(raw: string, other: OtherJson)
    requires raw != "" && Trimmed(raw)
    requires other(raw).Some? ==> Distinct(Texts(other(raw).value)) != [raw]
    ensures (Distinct(Texts(Candidates(raw, other))) == [raw]) <==> !("[" <= raw && Decode(raw, other).Some?)
  {
    StripTrimmed(raw);
    if "[" <= raw && DecodeStrings(raw).Some? {
      DecodedTextsAreShorter(raw, DecodeStrings(raw).value);
    } else if !("[" <= raw && Decode(raw, other).Some?) {
      assert Texts([Str(raw)]) == [raw];
      DistinctFixed([raw]);
    }
  }

  /** A sole value that is the text of a JSON array does not survive: `[]` comes back as no value at all. */
  lemma ArrayTextIsLost(other: OtherJson)
    ensures Cleaned(["[]"]) == ["[]"] && Parsed(Encode(["[]"]), other) == []
  {
    hide Strip, DecodeStrings, SkipBlank, Items;
    StripTrimmed("[]");
    assert Texts(Strings(["[]"])) == ["[]"];
    DistinctFixed(["[]"]);
    EmptyArrayIsDecoded();
    assert Texts(Strings([])) == [];
    DistinctOfNone();
  }

  lemma EmptyArrayIsDecoded()
    ensures DecodeStrings("[]") == Some([])
  {
    hide ReadItems;
    assert SkipBlank("[]"[1..]) == "]";
    assert SkipBlank("]"[1..]) == "";
  }

  /** No text decodes to a list that holds that text itself. */
  lemma DecodedTextsAreShorter(raw: string, items: seq<string>)
    requires forall v :: v in items ==> |v| < |raw|
    ensures raw !in Distinct(Texts(Strings(items)))
  {
    var texts := Texts(Strings(items));
    var at := DistinctMeaning(texts);
    forall i | 0 <= i < |texts| ensures texts[i] != raw {
      assert items[i] in items;
    }
  }
}
