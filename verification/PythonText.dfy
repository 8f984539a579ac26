/** The string operations of the source language that the use cases rely on. */
module PythonText {

  /** Code points that `str.strip` and `str.split` treat as white space. */
  predicate IsSpace(c: char) {
    var n := c as int;
    || 0x09 <= n <= 0x0D || 0x1C <= n <= 0x20 || n == 0x85 || n == 0xA0
    || n == 0x1680 || 0x2000 <= n <= 0x200A || n == 0x2028 || n == 0x2029
    || n == 0x202F || n == 0x205F || n == 0x3000
  }

  /** The white space of the language, code point by code point. */
  lemma SpacesAre(c: char)
    ensures IsSpace(c) <==> c as int in {
      9, 10, 11, 12, 13, 28, 29, 30, 31, 32, 133, 160, 5760,
      8192, 8193, 8194, 8195, 8196, 8197, 8198, 8199, 8200, 8201, 8202, 8232, 8233, 8239, 8287, 12288}
  {
  }

  predicate Blank(s: string) {
    forall c :: c in s ==> IsSpace(c)
  }

  function LeftStrip(s: string): (r: string)
    ensures |r| <= |s| && r == s[|s| - |r|..]
    ensures r == "" || !IsSpace(r[0])
    ensures Blank(s[..|s| - |r|])
  {
    if s != "" && IsSpace(s[0]) then LeftStrip(s[1..]) else s
  }

  function RightStrip(s: string): (r: string)
    ensures |r| <= |s| && r == s[..|r|]
    ensures r == "" || !IsSpace(r[|r| - 1])
    ensures Blank(s[|r|..])
  {
    if s != "" && IsSpace(s[|s| - 1]) then RightStrip(s[..|s| - 1]) else s
  }

  /** `str.strip()` */
  function Strip(s: string): (r: string)
    ensures |r| <= |s|
    ensures Trimmed(r)
  {
    RightStrip(LeftStrip(s))
  }

  predicate Trimmed(s: string) {
    s == "" || (!IsSpace(s[0]) && !IsSpace(s[|s| - 1]))
  }

  lemma SuffixOf(s: string, l: string)
    requires |l| <= |s| && l == s[|s| - |l|..]
    ensures s == s[..|s| - |l|] + l
  {
  }

  /** Stripping removes white space around the text, and nothing else. */
  lemma StripMeaning(s: string) returns (left: string, right: string)
    ensures s == left + Strip(s) + right && Blank(left) && Blank(right) && Trimmed(Strip(s))
  {
    hide LeftStrip, RightStrip, IsSpace, Blank;
    var l := LeftStrip(s);
    var r := RightStrip(l);
    left, right := s[..|s| - |l|], l[|r|..];
    SuffixOf(s, l);
    assert l == r + right;
  }

  lemma StripTrimmed(s: string)
    requires Trimmed(s)
    ensures Strip(s) == s
  {
  }

  /** `str.rstrip('/')` */
  function DropTrailingSlashes(s: string): (r: string)
    ensures r <= s
    ensures r == "" || r[|r| - 1] != '/'
    ensures forall i :: |r| <= i < |s| ==> s[i] == '/'
  {
    if s != "" && s[|s| - 1] == '/' then DropTrailingSlashes(s[..|s| - 1]) else s
  }

  /** `str.split()`: the maximal runs of non-space characters, in order. */
  function Words(s: string): (words: seq<string>)
    ensures forall w :: w in words ==> w != "" && forall c :: c in w ==> !IsSpace(c)
  {
    WordsFrom(s, "")
  }

  function WordsFrom(s: string, word: string): (words: seq<string>)
    requires forall c :: c in word ==> !IsSpace(c)
    ensures forall w :: w in words ==> w != "" && forall c :: c in w ==> !IsSpace(c)
  {
    var flushed := if word == "" then [] else [word];
    if s == "" then flushed
    else if IsSpace(s[0]) then flushed + WordsFrom(s[1..], "")
    else WordsFrom(s[1..], word + [s[0]])
  }

  predicate NoSpace(s: string) {
    forall c :: c in s ==> !IsSpace(c)
  }

  /** Text without white space is one word. */
  lemma {:induction false} WordsOfWord(s: string, word: string)
    requires NoSpace(s) && NoSpace(word) && word + s != ""
    ensures WordsFrom(s, word) == [word + s]
  {
    if s == "" {
      assert word + s == word;
    } else {
      WordsOfWord(s[1..], word + [s[0]]);
      assert word + [s[0]] + s[1..] == word + s;
    }
  }

  /** White space separates a word from the words after it. */
  lemma {:induction false} WordsAroundSpace(s: string, word: string, space: char, rest: string)
    requires NoSpace(s) && NoSpace(word) && IsSpace(space)
    ensures WordsFrom(s + [space] + rest, word) == (if word + s == "" then [] else [word + s]) + Words(rest)
  {
    var t := s + [space] + rest;
    if s == "" {
      assert word + s == word && t[1..] == rest;
    } else {
      assert t[1..] == s[1..] + [space] + rest;
      WordsAroundSpace(s[1..], word + [s[0]], space, rest);
      assert word + [s[0]] + s[1..] == word + s;
    }
  }

  /** The three laws that determine the words of every text. */
  lemma WordsMeaning(word: string, space: char, rest: string)
    requires NoSpace(word) && IsSpace(space)
    ensures Words("") == []
    ensures word != "" ==> Words(word) == [word]
    ensures Words(word + [space] + rest) == (if word == "" then [] else [word]) + Words(rest)
  {
    assert "" + word == word;
    if word != "" {
      WordsOfWord(word, "");
    }
    WordsAroundSpace(word, "", space, rest);
  }

  /** `sep.join(parts)` */
  function Join(sep: string, parts: seq<string>): string {
    if parts == [] then ""
    else if |parts| == 1 then parts[0]
    else parts[0] + sep + Join(sep, parts[1..])
  }

  /** `s.split(sep)` for a one-character separator: always at least one segment. */
  function Split(s: string, sep: char): (parts: seq<string>)
    ensures |parts| >= 1
    ensures forall p :: p in parts ==> sep !in p
  {
    if s == "" then [""]
    else
      var rest := Split(s[1..], sep);
      if s[0] == sep then [""] + rest else [[s[0]] + rest[0]] + rest[1..]
  }

  /** `str(n)` */
  function Decimal(n: nat): string {
    (if n < 10 then "" else Decimal(n / 10)) + [('0' as int + n % 10) as char]
  }

  /** Joining the segments again gives the text, and no segment holds the separator. */
  lemma {:induction false} JoinSplit(s: string, sep: char)
    ensures Join([sep], Split(s, sep)) == s
    ensures forall p :: p in Split(s, sep) ==> sep !in p
  {
    if s != "" {
      var rest := Split(s[1..], sep);
      JoinSplit(s[1..], sep);
      assert s == [s[0]] + s[1..];
      if s[0] == sep {
        assert ([""] + rest)[1..] == rest;
      } else {
        JoinHead([s[0]], rest, [sep]);
      }
    }
  }

  /** A separator separates. */
  lemma {:induction false} SplitAround(a: string, sep: char, b: string)
    ensures Split(a + [sep] + b, sep) == Split(a, sep) + Split(b, sep)
  {
    var s := a + [sep] + b;
    if a == "" {
      assert s[1..] == b;
    } else {
      assert s[1..] == a[1..] + [sep] + b;
      SplitAround(a[1..], sep, b);
    }
  }

  lemma {:induction false} SplitOfOne(s: string, sep: char)
    ensures sep !in s ==> Split(s, sep) == [s]
    ensures |Split(s, sep)| == 1 <==> sep !in s
  {
    if s != "" {
      SplitOfOne(s[1..], sep);
      assert s == [s[0]] + s[1..];
    }
  }

  /** Joined parts are split again exactly when none holds the separator; otherwise there are more. */
  lemma {:induction false} SplitJoin(parts: seq<string>, sep: char)
    requires parts != []
    ensures |Split(Join([sep], parts), sep)| >= |parts|
    ensures |Split(Join([sep], parts), sep)| == |parts| <==> forall p :: p in parts ==> sep !in p
    ensures (forall p :: p in parts ==> sep !in p) ==> Split(Join([sep], parts), sep) == parts
  {
    SplitOfOne(parts[0], sep);
    assert parts == [parts[0]] + parts[1..];
    if |parts| > 1 {
      SplitAround(parts[0], sep, Join([sep], parts[1..]));
      SplitJoin(parts[1..], sep);
      assert forall p :: p in parts <==> p == parts[0] || p in parts[1..];
    }
  }

  /** A prefix of the first part is a prefix of the whole. */
  lemma JoinHead(prefix: string, parts: seq<string>, sep: string)
    requires parts != []
    ensures Join(sep, [prefix + parts[0]] + parts[1..]) == prefix + Join(sep, parts)
  {
    assert ([prefix + parts[0]] + parts[1..])[1..] == parts[1..];
    if |parts| > 1 {
      assert prefix + parts[0] + sep + Join(sep, parts[1..]) == prefix + (parts[0] + sep + Join(sep, parts[1..]));
    }
  }

  predicate IsDigit(c: char) {
    '0' <= c <= '9'
  }

  /** The number a decimal text denotes. */
  function Number(s: string): nat
    requires forall c :: c in s ==> IsDigit(c)
  {
    if s == "" then 0
    else
      assert IsDigit(s[|s| - 1]);
      10 * Number(s[..|s| - 1]) + (s[|s| - 1] as int - '0' as int)
  }

  lemma {:induction false} DecimalMeaning(n: nat)
    ensures Decimal(n) != "" && forall c :: c in Decimal(n) ==> IsDigit(c)
    ensures Number(Decimal(n)) == n
    ensures n > 0 ==> Decimal(n)[0] != '0'
  {
    if n >= 10 {
      DecimalMeaning(n / 10);
    }
    var s := Decimal(n);
    assert s[..|s| - 1] == if n < 10 then "" else Decimal(n / 10);
  }
}
