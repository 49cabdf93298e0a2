/**
  References as text. The compiler keeps a reference as the string `node_id.port[path]`, takes it apart with a
  regular expression whenever it renames or redirects one, and prints the result again. Printing and reading agree,
  so the graph can be reasoned about with references that are already taken apart.
*/
module References {
  import opened Base
  import opened Ir
  import opened Blocks
  import Paths

  datatype Reference = Reference(nodeId: string, port: string, path: string)

  /** Ids may hold the colons of the compiler's own name spaces. */
  predicate AllIdChars(ab: Paths.Alphabet, s: string) {
    forall i | 0 <= i < |s| :: ab.isWord(s[i]) || s[i] == ':'
  }

  /** How many characters from the head of `s` match `[\w:]*`. */
  function IdRun(ab: Paths.Alphabet, s: string): (n: nat)
    ensures n <= |s| && AllIdChars(ab, s[..n]) && (n < |s| ==> !ab.isWord(s[n]) && s[n] != ':')
  {
    if s == "" || (!ab.isWord(s[0]) && s[0] != ':') then 0 else 1 + IdRun(ab, s[1..])
  }

  /** `.*$`: the rest of one line, a newline at the very end left out. */
  function OneLine(s: string): Option<string> {
    if '\n' !in s then Some(s)
    else if '\n' !in s[..|s| - 1] then Some(s[..|s| - 1])
    else None
  }

  /** The match of the reference pattern. */
  function Parse(ab: Paths.Alphabet, text: string): Option<Reference> {
    var n := IdRun(ab, text);
    if n == 0 || n == |text| || text[n] != '.' then None
    else
      var rest := text[n + 1..];
      var m := Paths.WordRun(ab, rest);
      if m == 0 then None
      else
        match OneLine(rest[m..])
        case None => None
        case Some(path) => Some(Reference(text[..n], rest[..m], path))
  }

  function Print(r: Reference): string {
    r.nodeId + "." + r.port + r.path
  }

  /** A reference that its printed form determines. */
  predicate WellFormed(ab: Paths.Alphabet, r: Reference) {
    && r.nodeId != "" && AllIdChars(ab, r.nodeId)
    && r.port != "" && Paths.AllWord(ab, r.port)
    && '\n' !in r.path && (r.path != "" ==> !ab.isWord(r.path[0]))
  }

  lemma {:induction false} IdRunOf(ab: Paths.Alphabet, id: string, rest: string)
    requires AllIdChars(ab, id) && (rest == "" || (!ab.isWord(rest[0]) && rest[0] != ':'))
    ensures IdRun(ab, id + rest) == |id|
  {
    if id == "" {
      assert id + rest == rest;
    } else {
      assert (id + rest)[1..] == id[1..] + rest;
      IdRunOf(ab, id[1..], rest);
    }
  }

  lemma {:induction false} DotIsNoId(ab: Paths.Alphabet)
    requires Paths.Regular(ab)
    ensures !ab.isWord('.')
  {
    Paths.SyntaxIsNoWord(ab);
  }

  /** Around its first dot. */
  lemma {:induction false} Cut(id: string, port: string, tail: string)
    ensures var text := id + "." + port + tail;
      text == id + ("." + (port + tail)) && text[|id|] == '.' && text[..|id|] == id && text[|id| + 1..] == port + tail
  {
  }

  /** A text of the shape of a reference is taken apart at its first dot and behind the port. */
  lemma {:induction false} TakenApart(ab: Paths.Alphabet, id: string, port: string, tail: string)
    requires Paths.Regular(ab) && id != "" && AllIdChars(ab, id) && port != "" && Paths.AllWord(ab, port)
    requires tail != "" ==> !ab.isWord(tail[0])
    ensures Parse(ab, id + "." + port + tail)
         == match OneLine(tail) case None => None case Some(path) => Some(Reference(id, port, path))
  {
    DotIsNoId(ab);
    var rest := port + tail;
    IdRunOf(ab, id, "." + rest);
    Paths.WordRunOf(ab, port, tail);
    hide AllIdChars, Paths.AllWord, Paths.Regular, OneLine;
    assert rest[|port|..] == tail;
    Cut(id, port, tail);
  }

  lemma {:induction false} NewlineIsNoWord(ab: Paths.Alphabet)
    requires Paths.Regular(ab)
    ensures !ab.isWord('\n')
  {
    Paths.SyntaxIsNoWord(ab);
    assert ".[]-:\n"[5] == '\n';
  }

  /** The newline that may end a line is not part of it. */
  lemma {:induction false} LineIsExact(tail: string, path: string)
    ensures OneLine(tail) == Some(path) <==> '\n' !in path && (tail == path || tail == path + "\n")
  {
    if '\n' in tail && '\n' !in tail[..|tail| - 1] {
      assert tail == tail[..|tail| - 1] + [tail[|tail| - 1]];
    }
    if tail == path + "\n" {
      assert tail[|path|] == '\n' && tail[..|path|] == path;
    }
  }

  /** Reading a printed reference gives it back. */
  lemma {:induction false} ParsePrinted(ab: Paths.Alphabet, r: Reference)
    requires Paths.Regular(ab) && WellFormed(ab, r)
    ensures Parse(ab, Print(r)) == Some(r)
  {
    TakenApart(ab, r.nodeId, r.port, r.path);
  }

  /** Whatever the pattern matches can be printed and read again. */
  lemma {:induction false} ParsedIsWellFormed(ab: Paths.Alphabet, text: string)
    requires Paths.Regular(ab) && Parse(ab, text).Some?
    ensures WellFormed(ab, Parse(ab, text).value)
  {
    var n := IdRun(ab, text);
    var rest := text[n + 1..];
    var m := Paths.WordRun(ab, rest);
    var r := Parse(ab, text).value;
    if r.path != "" { assert r.path[0] == rest[m..][0]; }
  }

  lemma {:induction false} Appended(head: string, path: string, end: string)
    ensures head + path + end == head + (path + end)
  {
  }

  lemma {:induction false} PrintedLineIsAccepted(ab: Paths.Alphabet, r: Reference)
    requires Paths.Regular(ab) && WellFormed(ab, r)
    ensures Parse(ab, Print(r) + "\n") == Some(r)
  {
    var head, tail := r.nodeId + "." + r.port, r.path + "\n";
    Appended(head, r.path, "\n");
    NewlineIsNoWord(ab);
    LineIsExact(tail, r.path);
    assert tail[0] == if r.path == "" then '\n' else r.path[0];
    hide Paths.Regular, Parse, OneLine, AllIdChars, Paths.AllWord;
    TakenApart(ab, r.nodeId, r.port, tail);
  }

  /** The pattern accepts a text exactly if it is the printed form of a reference that its printed form determines,
      with one newline after it or none, and then takes it apart into that reference. */
  lemma {:induction false} PatternIsExact(ab: Paths.Alphabet, text: string, r: Reference)
    requires Paths.Regular(ab)
    ensures Parse(ab, text) == Some(r) <==> WellFormed(ab, r) && (text == Print(r) || text == Print(r) + "\n")
  {
    hide Paths.Regular, Parse, OneLine, WellFormed;
    if Parse(ab, text) == Some(r) {
      ParsedIsWellFormed(ab, text);
      var tail := ParsedIsPrinted(ab, text);
      LineIsExact(tail, r.path);
      var head := r.nodeId + "." + r.port;
      assert tail == r.path + "\n" ==> head + tail == Print(r) + "\n";
    }
    if WellFormed(ab, r) {
      ParsePrinted(ab, r);
      PrintedLineIsAccepted(ab, r);
    }
  }

  lemma {:induction false} ParsedIsPrinted(ab: Paths.Alphabet, text: string) returns (tail: string)
    requires Parse(ab, text).Some?
    ensures var r := Parse(ab, text).value;
      text == r.nodeId + "." + r.port + tail && OneLine(tail) == Some(r.path)
  {
    hide OneLine, AllIdChars, Paths.AllWord;
    var n := IdRun(ab, text);
    var rest := text[n + 1..];
    var m := Paths.WordRun(ab, rest);
    tail := rest[m..];
    assert rest == rest[..m] + tail && text == text[..n] + "." + rest;
  }

  /** A reference with a path keeps it: the segments are read back too. */
  lemma {:induction false} PathIsReadBack(ab: Paths.Alphabet, nodeId: string, port: string, segments: seq<Segment>)
    requires Paths.Regular(ab) && nodeId != "" && AllIdChars(ab, nodeId) && port != "" && Paths.AllWord(ab, port)
    requires forall i | 0 <= i < |segments| :: Paths.Printable(ab, segments[i])
    ensures var r := Parse(ab, Print(Reference(nodeId, port, Paths.Print(segments))));
      r == Some(Reference(nodeId, port, Paths.Print(segments))) && Paths.Parse(ab, r.value.path) == Some(segments)
  {
    PrintedPathIsOneLine(ab, segments);
    ParsePrinted(ab, Reference(nodeId, port, Paths.Print(segments)));
    Paths.ParsePrinted(ab, segments);
  }

  lemma {:induction false} PrintedPathIsOneLine(ab: Paths.Alphabet, segments: seq<Segment>)
    requires Paths.Regular(ab) && forall i | 0 <= i < |segments| :: Paths.Printable(ab, segments[i])
    ensures '\n' !in Paths.Print(segments)
    ensures Paths.Print(segments) != "" ==> !ab.isWord(Paths.Print(segments)[0])
  {
    Paths.SyntaxIsNoWord(ab);
    assert '\n' in ".[]-:\n";
    if segments != [] {
      PrintedPathIsOneLine(ab, segments[1..]);
      var head := Paths.PrintSegment(segments[0]);
      assert Paths.Print(segments)[0] == head[0];
    }
  }

  // ---------------------------------------------------------------- renaming and redirecting text

  /** What the pattern makes of a reference as it is written. */
  function Read(ab: Paths.Alphabet, text: string): InputSpec {
    match Parse(ab, text)
    case None => MalformedRef(text)
    case Some(r) => Ref(r.nodeId, r.port, r.path)
  }

  /** `_rewrite_param_ref` on a reference: read, put into the caller's name space, printed. */
  function RewriteText(ab: Paths.Alphabet, prefix: string, text: string): string {
    match Parse(ab, text)
    case None => text
    case Some(r) => if r.nodeId == VARS_NODE_ID then text else Print(r.(nodeId := Namespaced(prefix, r.nodeId)))
  }

  /** `output_redirect` as the compiler keeps it, under the keys `call.name`. */
  ghost predicate Prints(outputs: map<(string, string), (string, string)>, redirect: map<string, string>) {
    && (forall x, q | (x, q) in outputs ::
          x + "." + q in redirect && redirect[x + "." + q] == outputs[(x, q)].0 + "." + outputs[(x, q)].1)
    && (forall key | key in redirect :: exists x, q :: (x, q) in outputs && key == x + "." + q)
  }

  /** `_redirect_input_ref` on a reference. */
  function RedirectText(ab: Paths.Alphabet, redirect: map<string, string>, text: string): string {
    match Parse(ab, text)
    case None => text
    case Some(r) =>
      var key := r.nodeId + "." + r.port;
      if key in redirect then redirect[key] + r.path else text
  }

  /** Ids of calls are words, and what their outputs stand for can be printed. */
  ghost predicate PlainOutputs(ab: Paths.Alphabet, outputs: map<(string, string), (string, string)>) {
    forall x, q | (x, q) in outputs ::
      '.' !in x && WellFormed(ab, Reference(outputs[(x, q)].0, outputs[(x, q)].1, ""))
  }

  /** Renaming a reference in its text and reading it is reading it and renaming it. */
  lemma {:induction false} RewritingText(ab: Paths.Alphabet, caller: NodeSpec, text: string)
    requires Paths.Regular(ab) && AllIdChars(ab, caller.id)
    ensures RewriteInput(Read(ab, text), caller) == Some(Read(ab, RewriteText(ab, caller.id, text)))
  {
    if Parse(ab, text).Some? && Parse(ab, text).value.nodeId != VARS_NODE_ID {
      ParsedIsWellFormed(ab, text);
      var r := Parse(ab, text).value;
      ParsePrinted(ab, r.(nodeId := Namespaced(caller.id, r.nodeId)));
    }
  }

  lemma {:induction false} FirstDot(x: string, q: string)
    requires '.' !in x
    ensures (x + "." + q)[|x|] == '.' && forall i | 0 <= i < |x| :: (x + "." + q)[i] != '.'
  {
    assert forall i | 0 <= i < |x| :: (x + "." + q)[i] == x[i];
  }

  lemma {:induction false} KeyIsUnique(x: string, q: string, y: string, p: string)
    requires '.' !in x && '.' !in y && x + "." + q == y + "." + p
    ensures x == y && q == p
  {
    FirstDot(x, q);
    FirstDot(y, p);
    assert x == (x + "." + q)[..|x|] && q == (x + "." + q)[|x| + 1..];
    assert y == (y + "." + p)[..|y|] && p == (y + "." + p)[|y| + 1..];
  }

  /** Redirecting a reference in its text and reading it is reading it and redirecting it. */
  lemma {:induction false} RedirectingText(ab: Paths.Alphabet, outputs: map<(string, string), (string, string)>,
                                           redirect: map<string, string>, text: string)
    requires Paths.Regular(ab) && Prints(outputs, redirect) && PlainOutputs(ab, outputs)
    ensures RedirectInput(Read(ab, text), outputs) == Read(ab, RedirectText(ab, redirect, text))
  {
    if Parse(ab, text).Some? {
      ParsedIsWellFormed(ab, text);
      Paths.SyntaxIsNoWord(ab);
      var r := Parse(ab, text).value;
      var key := r.nodeId + "." + r.port;
      if key in redirect {
        var x, q :| (x, q) in outputs && key == x + "." + q;
        KeyIsUnique(r.nodeId, r.port, x, q);
        var (id, port) := outputs[(x, q)];
        assert redirect[key] + r.path == Print(Reference(id, port, r.path));
        ParsePrinted(ab, Reference(id, port, r.path));
      }
    }
  }
}
