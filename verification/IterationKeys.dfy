/**
  Iteration keys: how a step row names the fan-out items, fork labels and revisits that lead to it. The key is
  one string; it can be read back, so different paths never share a row.
*/
module IterationKeys {
  import opened Decimals

  /** `_compose_iteration_key`, with Python's `None` stored as the empty string. */
  function Compose(parent: string, token: string): string {
    if parent == "" then token else parent + ":" + token
  }

  function VisitToken(n: nat): string {
    "visit" + Decimal(n)
  }

  /** The key of a node's step row: a revisit (n > 1) gets a key of its own. */
  function RowKey(chainKey: string, visits: nat): string {
    if visits > 1 then Compose(chainKey, VisitToken(visits)) else chainKey
  }

  function ForkKey(chainKey: string, lbl: string): string {
    Compose(chainKey, "fork:" + lbl)
  }

  // ---------------------------------------------------------------- paths and their keys

  /** One level of nesting on the way to a step row. */
  datatype Level = Iteration(token: string) | ForkBranch(lbl: string) | Revisit(n: nat)

  predicate ColonFree(s: string) {
    ':' !in s
  }

  predicate IsVisitToken(s: string) {
    |s| > 5 && s[..5] == "visit" && AllDigits(s[5..]) && Decimal(Value(s[5..])) == s[5..]
  }

  /** What keeps keys apart: items and labels are non-empty and colon-free, and no item reads like a level. */
  predicate Plain(level: Level) {
    match level
    case Iteration(token) => token != "" && ColonFree(token) && token != "fork" && !IsVisitToken(token)
    case ForkBranch(lbl) => lbl != "" && ColonFree(lbl)
    case Revisit(_) => true
  }

  predicate PlainPath(path: seq<Level>) {
    forall i | 0 <= i < |path| :: Plain(path[i])
  }

  /** The key of one more level. */
  function OneLevel(parent: string, level: Level): string {
    match level
    case Iteration(token) => Compose(parent, token)
    case ForkBranch(lbl) => ForkKey(parent, lbl)
    case Revisit(n) => Compose(parent, VisitToken(n))
  }

  function KeyOf(path: seq<Level>): string {
    if path == [] then "" else OneLevel(KeyOf(path[..|path| - 1]), path[|path| - 1])
  }

  // ---------------------------------------------------------------- reading a key back

  function Tokens(path: seq<Level>): seq<string> {
    if path == [] then []
    else (match path[0]
          case Iteration(token) => [token]
          case ForkBranch(lbl) => ["fork", lbl]
          case Revisit(n) => [VisitToken(n)]) + Tokens(path[1..])
  }

  function Joined(tokens: seq<string>): string {
    if tokens == [] then ""
    else if |tokens| == 1 then tokens[0]
    else tokens[0] + ":" + Joined(tokens[1..])
  }

  /** The tokens between the colons of a key. */
  function Split(key: string): (tokens: seq<string>)
    ensures tokens != []
  {
    if key == "" then [""]
    else
      var rest := Split(key[1..]);
      if key[0] == ':' then [""] + rest else [[key[0]] + rest[0]] + rest[1..]
  }

  function Levels(tokens: seq<string>): seq<Level> {
    if tokens == [] then []
    else if tokens[0] == "fork" && |tokens| > 1 then [ForkBranch(tokens[1])] + Levels(tokens[2..])
    else if IsVisitToken(tokens[0]) then [Revisit(Value(tokens[0][5..]))] + Levels(tokens[1..])
    else [Iteration(tokens[0])] + Levels(tokens[1..])
  }

  function PathOf(key: string): seq<Level> {
    if key == "" then [] else Levels(Split(key))
  }

  lemma {:induction false} SplitToken(token: string, rest: string)
    requires ColonFree(token)
    ensures Split(token) == [token]
    ensures Split(token + ":" + rest) == [token] + Split(rest)
  {
    var key := token + ":" + rest;
    if token == "" {
      assert key[1..] == rest;
    } else {
      SplitToken(token[1..], rest);
      assert key[1..] == token[1..] + ":" + rest;
      assert [token[0]] + token[1..] == token;
    }
  }

  predicate Proper(tokens: seq<string>) {
    forall i | 0 <= i < |tokens| :: tokens[i] != "" && ColonFree(tokens[i])
  }

  lemma {:induction false} SplitJoined(tokens: seq<string>)
    requires tokens != [] && Proper(tokens)
    ensures Split(Joined(tokens)) == tokens
  {
    if |tokens| == 1 {
      SplitToken(tokens[0], "");
    } else {
      SplitJoined(tokens[1..]);
      SplitToken(tokens[0], Joined(tokens[1..]));
    }
  }

  lemma {:induction false} VisitTokenReads(n: nat)
    ensures IsVisitToken(VisitToken(n)) && Value(VisitToken(n)[5..]) == n && ColonFree(VisitToken(n))
  {
    ValueOfDecimal(n);
    assert VisitToken(n)[5..] == Decimal(n);
    assert VisitToken(n)[..5] == "visit";
    assert ColonFree("visit") && forall i | 0 <= i < |Decimal(n)| :: IsDigit(Decimal(n)[i]);
  }

  lemma {:induction false} TokensProper(path: seq<Level>)
    requires PlainPath(path)
    ensures Proper(Tokens(path)) && (path != [] ==> Tokens(path) != [])
    ensures Levels(Tokens(path)) == path
  {
    if path != [] {
      TokensProper(path[1..]);
      var rest := Tokens(path[1..]);
      assert path == [path[0]] + path[1..];
      match path[0]
      case Iteration(token) => assert Tokens(path)[1..] == rest;
      case ForkBranch(lbl) => assert Tokens(path)[2..] == rest;
      case Revisit(n) => VisitTokenReads(n); assert Tokens(path)[1..] == rest;
    }
  }

  lemma {:induction false} FirstTokens(path: seq<Level>)
    requires path != []
    ensures Tokens(path) == Tokens([path[0]]) + Tokens(path[1..])
  {
    assert [path[0]][1..] == [];
  }

  lemma {:induction false} TokensAppend(path: seq<Level>, level: Level)
    ensures Tokens(path + [level]) == Tokens(path) + Tokens([level])
  {
    if path == [] {
      assert path + [level] == [level];
    } else {
      TokensAppend(path[1..], level);
      assert (path + [level])[1..] == path[1..] + [level] && (path + [level])[0] == path[0];
      var rest, last := Tokens(path[1..]), Tokens([level]);
      hide Tokens;
      FirstTokens(path);
      FirstTokens(path + [level]);
      var first := Tokens([path[0]]);
      assert first + (rest + last) == (first + rest) + last;
    }
  }

  lemma {:induction false} JoinedAppend(a: seq<string>, b: seq<string>)
    requires a != [] && b != []
    ensures Joined(a + b) == Joined(a) + ":" + Joined(b)
  {
    if |a| == 1 {
      assert (a + b)[1..] == b;
    } else {
      JoinedAppend(a[1..], b);
      assert (a + b)[1..] == a[1..] + b;
    }
  }

  lemma {:induction false} JoinedNonEmpty(tokens: seq<string>)
    requires tokens != [] && Proper(tokens)
    ensures Joined(tokens) != ""
  {
  }

  lemma {:induction false} KeyIsJoined(path: seq<Level>)
    requires PlainPath(path)
    ensures KeyOf(path) == Joined(Tokens(path))
  {
    if path != [] {
      var front, last := path[..|path| - 1], path[|path| - 1];
      assert path == front + [last];
      KeyIsJoined(front);
      TokensAppend(front, last);
      TokensProper(front);
      if front != [] {
        JoinedNonEmpty(Tokens(front));
        JoinedAppend(Tokens(front), Tokens([last]));
      }
      LastToken(last);
    }
  }

  lemma {:induction false} LastToken(level: Level)
    ensures Joined(Tokens([level])) == KeyOf([level])
  {
    if level.ForkBranch? {
      assert Tokens([level]) == ["fork", level.lbl];
      assert Joined(["fork", level.lbl][1..]) == level.lbl;
    }
  }

  /** A key can be read back: decoding is the left inverse of composing. */
  lemma {:induction false} PathOfKey(path: seq<Level>)
    requires PlainPath(path)
    ensures PathOf(KeyOf(path)) == path
  {
    KeyIsJoined(path);
    TokensProper(path);
    if path != [] {
      JoinedNonEmpty(Tokens(path));
      SplitJoined(Tokens(path));
    }
  }

  /** Two different paths of items, fork labels and revisits never share a key, and only the empty path has
      the empty key. */
  lemma {:induction false} KeysAreInjective(p: seq<Level>, q: seq<Level>)
    requires PlainPath(p) && PlainPath(q)
    ensures KeyOf(p) == KeyOf(q) <==> p == q
    ensures KeyOf(p) == "" <==> p == []
  {
    PathOfKey(p);
    PathOfKey(q);
    KeyIsJoined(p);
    TokensProper(p);
    if p != [] { JoinedNonEmpty(Tokens(p)); }
  }

  /** The keys the interpreter composes are the keys of paths. */
  lemma {:induction false} ComposedKeys(path: seq<Level>, token: string, lbl: string, visits: nat)
    ensures Compose(KeyOf(path), token) == KeyOf(path + [Iteration(token)])
    ensures ForkKey(KeyOf(path), lbl) == KeyOf(path + [ForkBranch(lbl)])
    ensures RowKey(KeyOf(path), visits) == KeyOf(if visits > 1 then path + [Revisit(visits)] else path)
  {
    assert (path + [Iteration(token)])[..|path|] == path;
    assert (path + [ForkBranch(lbl)])[..|path|] == path;
    assert (path + [Revisit(visits)])[..|path|] == path;
  }

  lemma {:induction false} TwoLevels(a: Level, b: Level)
    ensures KeyOf([a]) == OneLevel("", a) && KeyOf([a, b]) == OneLevel(KeyOf([a]), b)
  {
    assert [a][..0] == [] && [a, b][..1] == [a];
    assert KeyOf([]) == "";
  }

  lemma {:induction false} SplitAtColon(text: string) returns (a: string, b: string)
    requires !ColonFree(text)
    ensures text == a + ":" + b
  {
    var i :| 0 <= i < |text| && text[i] == ':';
    a, b := text[..i], text[i + 1..];
  }

  lemma {:induction false} ItemWithColonCollides(token: string) returns (p: seq<Level>, q: seq<Level>)
    requires !ColonFree(token)
    ensures Iteration(token) in p && p != q && KeyOf(p) == KeyOf(q)
  {
    var a, b := SplitAtColon(token);
    p, q := [Iteration("z"), Iteration(token)], [Iteration("z:" + a), Iteration(b)];
    TwoLevels(Iteration("z"), Iteration(token));
    TwoLevels(Iteration("z:" + a), Iteration(b));
    hide KeyOf, ColonFree;
    assert "z" + ":" + (a + ":" + b) == ("z:" + a) + ":" + b;
    assert |p[0].token| == 1 && |q[0].token| > 1;
  }

  lemma {:induction false} LabelWithColonCollides(lbl: string) returns (p: seq<Level>, q: seq<Level>)
    requires !ColonFree(lbl)
    ensures ForkBranch(lbl) in p && p != q && KeyOf(p) == KeyOf(q)
  {
    var a, b := SplitAtColon(lbl);
    p, q := [ForkBranch(lbl)], [ForkBranch(a), Iteration(b)];
    TwoLevels(ForkBranch(lbl), ForkBranch(lbl));
    TwoLevels(ForkBranch(a), Iteration(b));
    hide KeyOf, ColonFree;
    assert "fork:" + (a + ":" + b) == ("fork:" + a) + ":" + b;
    assert |p| != |q|;
  }

  /** Each condition is needed: every level it excludes occurs in a path that shares its key with another one. */
  lemma {:induction false} EveryOtherLevelCollides(level: Level) returns (p: seq<Level>, q: seq<Level>)
    requires !Plain(level)
    ensures level in p && p != q && KeyOf(p) == KeyOf(q)
  {
    match level
    case Iteration(token) =>
      if !ColonFree(token) {
        p, q := ItemWithColonCollides(token);
      } else {
        TwoLevels(level, Iteration("a"));
        if token == "" {
          p, q := [level], [];
        } else if token == "fork" {
          p, q := [level, Iteration("a")], [ForkBranch("a")];
          TwoLevels(ForkBranch("a"), level);
        } else {
          p, q := [level], [Revisit(Value(token[5..]))];
          TwoLevels(q[0], level);
          assert token == token[..5] + token[5..];
        }
      }
    case ForkBranch(lbl) =>
      if lbl == "" {
        p, q := [level], [Iteration("fork"), Iteration("")];
        TwoLevels(Iteration("fork"), Iteration(""));
      } else {
        p, q := LabelWithColonCollides(lbl);
      }
  }
}
