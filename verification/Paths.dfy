/** The reference path language: the grammar of `.name` and `[index]` segments, and walking them over JSON. */
module Paths {
  import opened Base
  import opened Decimals
  import opened JsonValues
  import opened Ir

  /** One segment applied to a decoded value; None is a PathResolutionError. */
  function Enter(j: Json, segment: Segment): Option<Json> {
    match segment
    case Field(name) => if j.JObj? then Lookup(j.fields, name) else None
    case Index(i) =>
      if !j.JArr? then None
      else
        var k := if i < 0 then |j.elements| + i else i;
        if 0 <= k < |j.elements| then Some(j.elements[k]) else None
  }

  function Walk(j: Json, path: seq<Segment>): Option<Json> {
    if path == [] then Some(j)
    else
      match Enter(j, path[0])
      case None => None
      case Some(next) => Walk(next, path[1..])
  }

  /** A container leaf goes back to a JSON string, a scalar leaf stays as it is. */
  function Encode(c: Codec, leaf: Json): Json {
    if IsContainer(leaf) then JStr(c.dumps(leaf)) else leaf
  }

  /** What `resolve_path` computes; None is a PathResolutionError. */
  function Resolve(c: Codec, value: Json, path: seq<Segment>): Option<Json> {
    if path == [] then Some(value)
    else if !value.JStr? then None
    else
      match c.loads(value.s)
      case None => None
      case Some(decoded) =>
        match Walk(decoded, path)
        case None => None
        case Some(leaf) => Some(Encode(c, leaf))
  }

  // ---------------------------------------------------------------- grammar

  /** What the regular expressions take for word characters and decimal digits, and what each digit counts. */
  datatype Alphabet = Alphabet(isWord: char -> bool, digit: char -> Option<nat>)

  /** Python's classes, whatever letters and digits of other scripts they hold. */
  ghost predicate Regular(ab: Alphabet) {
    && (forall c: char :: IsDigit(c) ==> ab.digit(c) == Some(DigitValue(c)))
    && (forall c: char :: ab.digit(c).Some? ==> ab.isWord(c) && ab.digit(c).value < 10)
    && (forall c: char :: 'a' <= c <= 'z' || 'A' <= c <= 'Z' || c == '_' ==> ab.isWord(c))
    && (forall c: char :: c in ".[]-:\n" ==> !ab.isWord(c))
  }

  /** The smallest of them. */
  const ASCII := Alphabet(c => IsDigit(c) || 'a' <= c <= 'z' || 'A' <= c <= 'Z' || c == '_',
                          c => if IsDigit(c) then Some(DigitValue(c)) else None)

  lemma AsciiIsRegular()
    ensures Regular(ASCII)
  {
  }

  predicate AllWord(ab: Alphabet, s: string) {
    forall i | 0 <= i < |s| :: ab.isWord(s[i])
  }

  predicate AllNumeric(ab: Alphabet, s: string) {
    forall i | 0 <= i < |s| :: ab.digit(s[i]).Some?
  }

  lemma SyntaxIsNoWord(ab: Alphabet)
    requires Regular(ab)
    ensures !ab.isWord('.') && !ab.isWord('[') && !ab.isWord(']') && !ab.isWord('-') && !ab.isWord(':')
    ensures ab.digit(']').None? && ab.digit('-').None?
  {
    assert '.' in ".[]-:\n" && '[' in ".[]-:\n" && ']' in ".[]-:\n" && '-' in ".[]-:\n" && ':' in ".[]-:\n";
  }

  /** Python's `int` of a digit string. */
  function Number(ab: Alphabet, s: string): nat
    requires AllNumeric(ab, s)
  {
    if s == "" then 0 else 10 * Number(ab, s[..|s| - 1]) + ab.digit(s[|s| - 1]).value
  }

  /** Decimal notation reads the same in every such alphabet. */
  lemma {:induction false} NumberOfDecimal(ab: Alphabet, n: nat)
    requires Regular(ab)
    ensures AllNumeric(ab, Decimal(n)) && Number(ab, Decimal(n)) == n
  {
    if n >= 10 {
      NumberOfDecimal(ab, n / 10);
      assert Decimal(n)[..|Decimal(n)| - 1] == Decimal(n / 10);
    } else {
      assert Number(ab, [Digit(n)][..0]) == 0;
    }
  }

  /** The text `t` is one segment and denotes `segment`. */
  predicate Denotes(ab: Alphabet, t: string, segment: Segment) {
    match segment
    case Field(name) => name != "" && AllWord(ab, name) && t == "." + name
    case Index(i) =>
      && |t| >= 3 && t[0] == '[' && t[|t| - 1] == ']'
      && var inner := t[1..|t| - 1];
         if inner[0] == '-' then |inner| > 1 && AllNumeric(ab, inner[1..]) && i == -(Number(ab, inner[1..]) as int)
         else AllNumeric(ab, inner) && i == Number(ab, inner)
  }

  function Concat(texts: seq<string>): string {
    if texts == [] then "" else texts[0] + Concat(texts[1..])
  }

  /** `raw` is a concatenation of segment texts that denote `segments`. */
  ghost predicate Spells(ab: Alphabet, raw: string, segments: seq<Segment>, texts: seq<string>) {
    |texts| == |segments| && raw == Concat(texts) && forall i | 0 <= i < |texts| :: Denotes(ab, texts[i], segments[i])
  }

  // ---------------------------------------------------------------- the tokenizer

  /** How many characters from the head of `s` are word characters (`\w*`). */
  function WordRun(ab: Alphabet, s: string): (n: nat)
    ensures n <= |s| && AllWord(ab, s[..n]) && (n < |s| ==> !ab.isWord(s[n]))
  {
    if s == "" || !ab.isWord(s[0]) then 0 else 1 + WordRun(ab, s[1..])
  }

  function DigitRun(ab: Alphabet, s: string): (n: nat)
    ensures n <= |s| && AllNumeric(ab, s[..n]) && (n < |s| ==> ab.digit(s[n]).None?)
  {
    if s == "" || ab.digit(s[0]).None? then 0 else 1 + DigitRun(ab, s[1..])
  }

  /** The segment pattern anchored at the head of `s`: the segment and its length. */
  function MatchHead(ab: Alphabet, s: string): (r: Option<(Segment, nat)>)
    ensures r.Some? ==> 0 < r.value.1 <= |s|
  {
    if s == "" then None
    else if s[0] == '.' then
      var n := WordRun(ab, s[1..]);
      if n == 0 then None else Some((Field(s[1..n + 1]), n + 1))
    else if s[0] == '[' then
      var sign := if |s| > 1 && s[1] == '-' then 1 else 0;
      var n := DigitRun(ab, s[1 + sign..]);
      if n == 0 || 1 + sign + n >= |s| || s[1 + sign + n] != ']' then None
      else
        var value := Number(ab, s[1 + sign..][..n]);
        Some((Index(if sign == 1 then -(value as int) else value), sign + n + 2))
    else None
  }

  function Parse(ab: Alphabet, raw: string): Option<seq<Segment>>
    decreases |raw|
  {
    if raw == "" then Some([])
    else
      match MatchHead(ab, raw)
      case None => None
      case Some((segment, n)) =>
        match Parse(ab, raw[n..])
        case None => None
        case Some(rest) => Some([segment] + rest)
  }

  /** `re.finditer` from `pos`: the first position at which the pattern matches. */
  method Search(ab: Alphabet, raw: string, pos: nat) returns (start: nat)
    requires pos <= |raw|
    ensures pos <= start <= |raw|
    ensures forall i | pos <= i < start :: MatchHead(ab, raw[i..]).None?
    ensures start < |raw| ==> MatchHead(ab, raw[start..]).Some?
  {
    start := pos;
    while start < |raw| && MatchHead(ab, raw[start..]).None?
      invariant pos <= start <= |raw|
      invariant forall i | pos <= i < start :: MatchHead(ab, raw[i..]).None?
    {
      start := start + 1;
    }
  }

  /** `parse_path`: every match must begin where the one before it ended, and the last must end the text. */
  method ParsePath(ab: Alphabet, raw: string) returns (r: Result<seq<Segment>>)
    ensures r.Ok? <==> Parse(ab, raw).Some?
    ensures r.Ok? ==> Parse(ab, raw) == Some(r.value)
  {
    hide MatchHead;
    var segments: seq<Segment>, pos := [], 0;
    var start := Search(ab, raw, 0);
    assert raw[0..] == raw;
    while start < |raw|
      invariant 0 <= pos <= start <= |raw|
      invariant forall i | pos <= i < start :: MatchHead(ab, raw[i..]).None?
      invariant start < |raw| ==> MatchHead(ab, raw[start..]).Some?
      invariant Parse(ab, raw).Some? <==> Parse(ab, raw[pos..]).Some?
      invariant Parse(ab, raw).Some? ==> Parse(ab, raw).value == segments + Parse(ab, raw[pos..]).value
      decreases |raw| - pos
    {
      if start != pos {
        return Err("malformed path");
      }
      var (segment, n) := MatchHead(ab, raw[pos..]).value;
      assert raw[pos..][n..] == raw[pos + n..];
      segments := segments + [segment];
      pos := pos + n;
      start := Search(ab, raw, pos);
    }
    if pos != |raw| {
      return Err("malformed path");
    }
    assert raw[pos..] == "" && segments + [] == segments;
    r := Ok(segments);
  }

  lemma {:induction false} WordRunOf(ab: Alphabet, name: string, rest: string)
    requires AllWord(ab, name) && (rest == "" || !ab.isWord(rest[0]))
    ensures WordRun(ab, name + rest) == |name|
  {
    if name == "" {
      assert name + rest == rest;
    } else {
      assert (name + rest)[1..] == name[1..] + rest;
      WordRunOf(ab, name[1..], rest);
    }
  }

  lemma {:induction false} DigitRunOf(ab: Alphabet, digits: string, rest: string)
    requires AllNumeric(ab, digits) && (rest == "" || ab.digit(rest[0]).None?)
    ensures DigitRun(ab, digits + rest) == |digits|
  {
    if digits == "" {
      assert digits + rest == rest;
    } else {
      assert (digits + rest)[1..] == digits[1..] + rest;
      DigitRunOf(ab, digits[1..], rest);
    }
  }

  predicate StartsSegment(rest: string) {
    rest == "" || rest[0] == '.' || rest[0] == '['
  }

  /** A segment text at the head of a path is matched as a whole. */
  lemma {:induction false} MatchesText(ab: Alphabet, t: string, segment: Segment, rest: string)
    requires Regular(ab)
    requires Denotes(ab, t, segment) && StartsSegment(rest)
    ensures t != "" && MatchHead(ab, t + rest) == Some((segment, |t|))
  {
    if segment.Field? {
      var s := t + rest;
      assert s[1..] == segment.name + rest;
      SyntaxIsNoWord(ab);
      WordRunOf(ab, segment.name, rest);
      assert s[1..|t|] == segment.name;
    } else {
      MatchesIndex(ab, t, segment, rest);
    }
  }

  lemma {:induction false} MatchesIndex(ab: Alphabet, t: string, segment: Segment, rest: string)
    requires Regular(ab)
    requires Denotes(ab, t, segment) && segment.Index?
    ensures MatchHead(ab, t + rest) == Some((segment, |t|))
  {
    var inner := t[1..|t| - 1];
    var sign := if inner[0] == '-' then 1 else 0;
    var digits := inner[sign..];
    assert t[1 + sign..] == digits + "]";
    assert sign == 0 ==> digits == inner;
    assert (digits + "]") + rest == digits + ("]" + rest);
    assert (t + rest)[1 + sign..] == t[1 + sign..] + rest;
    assert (t + rest)[0] == '[' && (t + rest)[1] == inner[0];
    SyntaxIsNoWord(ab);
    MatchesDigits(ab, t + rest, sign, digits, rest);
  }

  lemma {:induction false} MatchesDigits(ab: Alphabet, s: string, sign: nat, digits: string, rest: string)
    requires ab.digit(']').None? && digits != "" && AllNumeric(ab, digits)
    requires |s| > 1 + sign && s[0] == '[' && sign == (if s[1] == '-' then 1 else 0)
    requires s[1 + sign..] == digits + ("]" + rest)
    ensures MatchHead(ab, s)
         == Some((Index(if sign == 1 then -(Number(ab, digits) as int) else Number(ab, digits)), sign + |digits| + 2))
  {
    hide Number, AllNumeric;
    var text := digits + ("]" + rest);
    DigitRunOf(ab, digits, "]" + rest);
    assert text[..|digits|] == digits;
    assert s[1 + sign + |digits|] == s[1 + sign..][|digits|] == ']';
  }

  /** Whatever matches at the head is a segment text. */
  lemma {:induction false} MatchDenotes(ab: Alphabet, s: string)
    requires MatchHead(ab, s).Some?
    ensures var (segment, n) := MatchHead(ab, s).value; Denotes(ab, s[..n], segment)
  {
    var (segment, n) := MatchHead(ab, s).value;
    var t := s[..n];
    if s[0] == '.' {
      assert t == "." + s[1..n];
      assert s[1..][..n - 1] == s[1..n];
    } else {
      var sign := if s[1] == '-' then 1 else 0;
      var inner := t[1..n - 1];
      assert inner[sign..] == s[1 + sign..][..n - 2 - sign];
      if sign == 0 { assert inner[0..] == inner; }
    }
  }

  lemma {:induction false} ConcatStarts(ab: Alphabet, texts: seq<string>, segments: seq<Segment>)
    requires |texts| == |segments| && forall i | 0 <= i < |texts| :: Denotes(ab, texts[i], segments[i])
    ensures StartsSegment(Concat(texts))
  {
  }

  lemma {:induction false} SpelledIsParsed(ab: Alphabet, raw: string, segments: seq<Segment>, texts: seq<string>)
    requires Regular(ab)
    requires Spells(ab, raw, segments, texts)
    ensures Parse(ab, raw) == Some(segments)
    decreases |texts|
  {
    if texts != [] {
      var rest := Concat(texts[1..]);
      ConcatStarts(ab, texts[1..], segments[1..]);
      MatchesText(ab, texts[0], segments[0], rest);
      assert raw[|texts[0]|..] == rest;
      SpelledIsParsed(ab, rest, segments[1..], texts[1..]);
      assert segments == [segments[0]] + segments[1..];
    }
  }

  lemma {:induction false} OneMoreSpelled(ab: Alphabet, raw: string, n: nat, segment: Segment,
                                          segments: seq<Segment>, texts: seq<string>)
    requires n <= |raw| && Denotes(ab, raw[..n], segment) && Spells(ab, raw[n..], segments, texts)
    ensures Spells(ab, raw, [segment] + segments, [raw[..n]] + texts)
  {
    hide Denotes;
    assert ([raw[..n]] + texts)[1..] == texts;
    assert raw == raw[..n] + raw[n..];
  }

  lemma {:induction false} ParsedIsSpelled(ab: Alphabet, raw: string) returns (texts: seq<string>)
    requires Parse(ab, raw).Some?
    ensures Spells(ab, raw, Parse(ab, raw).value, texts)
    decreases |raw|
  {
    hide MatchHead, Denotes, Concat;
    texts := [];
    if raw == "" {
      NothingSpelled(ab);
    } else {
      hide Spells;
      var (segment, n) := MatchHead(ab, raw).value;
      MatchDenotes(ab, raw);
      var tail := ParsedIsSpelled(ab, raw[n..]);
      texts := [raw[..n]] + tail;
      OneMoreSpelled(ab, raw, n, segment, Parse(ab, raw[n..]).value, tail);
    }
  }

  lemma {:induction false} NothingSpelled(ab: Alphabet)
    ensures Spells(ab, "", [], [])
  {
  }

  /** The parser accepts exactly the concatenations of segment texts, and reads off what they denote. */
  lemma {:induction false} GrammarIsExact(ab: Alphabet, raw: string, segments: seq<Segment>)
    requires Regular(ab)
    ensures Parse(ab, raw) == Some(segments) <==> exists texts: seq<string> :: Spells(ab, raw, segments, texts)
  {
    if Parse(ab, raw) == Some(segments) {
      var texts := ParsedIsSpelled(ab, raw);
    }
    forall texts: seq<string> | Spells(ab, raw, segments, texts)
      ensures Parse(ab, raw) == Some(segments)
    {
      SpelledIsParsed(ab, raw, segments, texts);
    }
  }

  // ---------------------------------------------------------------- printing

  predicate Printable(ab: Alphabet, segment: Segment) {
    segment.Field? ==> segment.name != "" && AllWord(ab, segment.name)
  }

  function PrintSegment(segment: Segment): string {
    match segment
    case Field(name) => "." + name
    case Index(i) => "[" + (if i < 0 then "-" + Decimal(-i) else Decimal(i)) + "]"
  }

  function Print(segments: seq<Segment>): string {
    if segments == [] then "" else PrintSegment(segments[0]) + Print(segments[1..])
  }

  lemma {:induction false} PrintedDenotes(ab: Alphabet, segment: Segment)
    requires Regular(ab)
    requires Printable(ab, segment)
    ensures Denotes(ab, PrintSegment(segment), segment)
  {
    if segment.Index? {
      var i := segment.index;
      var digits := Decimal(if i < 0 then -i else i);
      NumberOfDecimal(ab, if i < 0 then -i else i);
      SyntaxIsNoWord(ab);
      var t := PrintSegment(segment);
      assert t[1..|t| - 1] == (if i < 0 then "-" + digits else digits);
      assert ("-" + digits)[1..] == digits;
      assert IsDigit(digits[0]);
    }
  }

  lemma {:induction false} PrintIsConcat(segments: seq<Segment>)
    ensures Print(segments) == Concat(seq(|segments|, i requires 0 <= i < |segments| => PrintSegment(segments[i])))
  {
    if segments != [] {
      PrintIsConcat(segments[1..]);
      var texts := seq(|segments|, i requires 0 <= i < |segments| => PrintSegment(segments[i]));
      assert texts[1..] == seq(|segments[1..]|, i requires 0 <= i < |segments[1..]| => PrintSegment(segments[1..][i]));
    }
  }

  /** Parsing what was printed gives the segments back, negative indices included. */
  lemma {:induction false} ParsePrinted(ab: Alphabet, segments: seq<Segment>)
    requires Regular(ab)
    requires forall i | 0 <= i < |segments| :: Printable(ab, segments[i])
    ensures Parse(ab, Print(segments)) == Some(segments)
  {
    var texts := seq(|segments|, i requires 0 <= i < |segments| => PrintSegment(segments[i]));
    PrintIsConcat(segments);
    forall i | 0 <= i < |segments|
      ensures Denotes(ab, texts[i], segments[i])
    {
      PrintedDenotes(ab, segments[i]);
    }
    SpelledIsParsed(ab, Print(segments), segments, texts);
  }

  // ---------------------------------------------------------------- resolving

  /** `resolve_path`, which decodes once and then walks segment by segment. */
  method ResolvePath(c: Codec, value: Json, path: seq<Segment>) returns (r: Option<Json>)
    ensures r == Resolve(c, value, path)
  {
    if path == [] {
      return Some(value);
    }
    if !value.JStr? {
      return None;
    }
    var decoded := c.loads(value.s);
    if decoded.None? {
      return None;
    }
    var current := decoded.value;
    for i := 0 to |path|
      invariant Walk(current, path[i..]) == Walk(decoded.value, path)
    {
      assert path[i..][1..] == path[i + 1..];
      var next := Enter(current, path[i]);
      if next.None? {
        return None;
      }
      current := next.value;
    }
    r := Some(Encode(c, current));
  }

  lemma {:induction false} WalkSplits(j: Json, p: seq<Segment>, q: seq<Segment>)
    ensures Walk(j, p + q) == match Walk(j, p) case None => None case Some(leaf) => Walk(leaf, q)
    decreases |p|
  {
    if p == [] {
      assert p + q == q;
    } else {
      assert (p + q)[1..] == p[1..] + q;
      if Enter(j, p[0]).Some? {
        WalkSplits(Enter(j, p[0]).value, p[1..], q);
      }
    }
  }

  /** The decoded value that `path` leads to, before it is encoded again. */
  function Leaf(c: Codec, value: Json, path: seq<Segment>): Option<Json> {
    if !value.JStr? || c.loads(value.s).None? then None else Walk(c.loads(value.s).value, path)
  }

  /** The law of json.dumps and json.loads, at one value. */
  predicate Reloads(c: Codec, j: Json) {
    c.loads(c.dumps(j)) == Some(j)
  }

  /** Walking a path in one go is walking its first part, encoding, and walking the second, as long as the
      first part leads to an object or array; to a scalar there is no walking on. The serialiser need only
      be able to read back that one object or array. */
  lemma {:induction false} PathSplits(c: Codec, value: Json, p: seq<Segment>, q: seq<Segment>)
    requires p != [] && q != []
    requires Leaf(c, value, p).Some? && IsContainer(Leaf(c, value, p).value) ==> Reloads(c, Leaf(c, value, p).value)
    ensures Resolve(c, value, p + q) ==
              if Leaf(c, value, p).Some? && IsContainer(Leaf(c, value, p).value)
              then Resolve(c, Resolve(c, value, p).value, q)
              else None
    ensures Resolve(c, value, p + q).Some? ==> Resolve(c, value, p).Some?
  {
    if value.JStr? && c.loads(value.s).Some? {
      var decoded := c.loads(value.s).value;
      WalkSplits(decoded, p, q);
      if Walk(decoded, p).Some? {
        var leaf := Walk(decoded, p).value;
        if !IsContainer(leaf) { ScalarsEnd(leaf, q); }
      }
    }
  }

  lemma {:induction false} ScalarsEnd(leaf: Json, q: seq<Segment>)
    requires q != [] && !IsContainer(leaf)
    ensures Walk(leaf, q).None?
  {
  }

  /** The converse fails for a string that itself holds JSON: only the two-step walk decodes it. */
  lemma {:induction false} EmbeddedJsonNeedsTwoWalks(c: Codec, inner: Json)
    requires var text := JStr(c.dumps(JArr([inner])));
      Reloads(c, JArr([inner])) && Reloads(c, JObj(map["a" := text]))
    ensures var value := JStr(c.dumps(JObj(map["a" := JStr(c.dumps(JArr([inner])))])));
            && Resolve(c, value, [Field("a")] + [Index(0)]) == None
            && Resolve(c, value, [Field("a")]).Some?
            && Resolve(c, Resolve(c, value, [Field("a")]).value, [Index(0)]) == Some(Encode(c, inner))
  {
    var text := JStr(c.dumps(JArr([inner])));
    var outer := JObj(map["a" := text]);
    assert Walk(outer, [Field("a")]) == Some(text) by { assert Walk(text, [Field("a")][1..]) == Some(text); }
    PathSplits(c, JStr(c.dumps(outer)), [Field("a")], [Index(0)]);
    assert Walk(JArr([inner]), [Index(0)]) == Some(inner) by { assert Walk(inner, [Index(0)][1..]) == Some(inner); }
  }

  /** Some codec reads back all the values of that example, so it is one. */
  lemma {:induction false} SomeCodecEmbeds() returns (c: Codec)
    ensures var text := JStr(c.dumps(JArr([JNull])));
      Reloads(c, JArr([JNull])) && Reloads(c, JObj(map["a" := text]))
  {
    c := Codec(s => if s == "[null]" then Some(JArr([JNull])) else Some(JObj(map["a" := JStr("[null]")])),
               j => if j == JArr([JNull]) then "[null]" else "{\"a\": \"[null]\"}",
               j => "");
  }
}
