/**
The KiCad S-expression reader (netlist_parser.py): a tokeniser that advances an index over the
text, and a parser that advances a shared position over the tokens. Both accept every text.
*/
module Sexpr {
  datatype Token = LP | RP | Str(text: string) | Sym(text: string)

  datatype Node = StrAtom(text: string) | SymAtom(text: string) | List(kids: seq<Node>)

  // `str.isspace`, one code point at a time.
  predicate IsSpace(c: char) {
    var k := c as int;
    || 0x09 <= k <= 0x0D || 0x1C <= k <= 0x20 || k == 0x85 || k == 0xA0 || k == 0x1680 || 0x2000 <= k <= 0x200A
    || k == 0x2028 || k == 0x2029 || k == 0x202F || k == 0x205F || k == 0x3000
  }

  predicate EndsSymbol(c: char) {
    IsSpace(c) || c == '(' || c == ')' || c == '"'
  }

  // ---------------------------------------------------------------- what a text means

  // The string that starts after an opening quote, and what follows its closing quote.
  function ReadString(s: string): (r: (string, string))
    ensures |r.1| <= |s|
  {
    if s == [] then ([], [])
    else if s[0] == '"' then ([], s[1..])
    else if s[0] == '\\' && |s| > 1 then
      var (body, rest) := ReadString(s[2..]);
      ([s[1]] + body, rest)
    else
      var (body, rest) := ReadString(s[1..]);
      ([s[0]] + body, rest)
  }

  function ReadSymbol(s: string): (r: (string, string))
    ensures r.0 + r.1 == s
    ensures forall k :: 0 <= k < |r.0| ==> !EndsSymbol(r.0[k])
    ensures s != [] && !EndsSymbol(s[0]) ==> r.0 != []
  {
    if s == [] || EndsSymbol(s[0]) then ([], s)
    else
      var (body, rest) := ReadSymbol(s[1..]);
      ([s[0]] + body, rest)
  }

  function Lex(s: string): seq<Token>
    decreases |s|
  {
    if s == [] then []
    else if s[0] == '(' then [LP] + Lex(s[1..])
    else if s[0] == ')' then [RP] + Lex(s[1..])
    else if s[0] == '"' then
      var (body, rest) := ReadString(s[1..]);
      [Str(body)] + Lex(rest)
    else if IsSpace(s[0]) then Lex(s[1..])
    else
      var (body, rest) := ReadSymbol(s);
      [Sym(body)] + Lex(rest)
  }

  function AtomOf(t: Token): Node
    requires t.Str? || t.Sym?
  {
    if t.Str? then StrAtom(t.text) else SymAtom(t.text)
  }

  // The nodes up to the parenthesis that closes them (or the end), and what follows it.
  function Items(ts: seq<Token>): (r: (seq<Node>, seq<Token>))
    ensures |r.1| <= |ts|
    decreases |ts|
  {
    if ts == [] then ([], [])
    else match ts[0]
      case RP => ([], ts[1..])
      case LP =>
        var (kids, rest) := Items(ts[1..]);
        var (more, rest') := Items(rest);
        ([List(kids)] + more, rest')
      case _ =>
        var (more, rest) := Items(ts[1..]);
        ([AtomOf(ts[0])] + more, rest)
  }

  // Outside every list, atoms and stray closing parentheses are dropped.
  function Forest(ts: seq<Token>): seq<Node>
    decreases |ts|
  {
    if ts == [] then []
    else if ts[0] == LP then
      var (kids, rest) := Items(ts[1..]);
      [List(kids)] + Forest(rest)
    else Forest(ts[1..])
  }

  function Read(s: string): seq<Node> {
    Forest(Lex(s))
  }

  // ---------------------------------------------------------------- the tokeniser

  lemma Regroup<T>(before: seq<T>, one: T, more: seq<T>)
    ensures before + ([one] + more) == (before + [one]) + more
  {}

  // The text from position i on; a position past the end stands for the end.
  function From(text: string, i: nat): string {
    if i < |text| then text[i..] else ""
  }

  // The loop of a quoted string, from the character after its opening quote to the one after its
  // closing quote.
  method ScanString(text: string, start: nat) returns (buf: string, i: nat)
    requires start <= |text|
    ensures start < i <= |text| + 1
    ensures ReadString(text[start..]) == (buf, From(text, i))
  {
    i := start;
    buf := "";
    assert "" + ReadString(text[i..]).0 == ReadString(text[i..]).0;
    while i < |text| && text[i] != '"'
      invariant start <= i <= |text|
      invariant ReadString(text[start..]) == (buf + ReadString(text[i..]).0, ReadString(text[i..]).1)
      decreases |text| - i
    {
      var here := text[i..];
      if text[i] == '\\' && i + 1 < |text| {
        assert here[2..] == text[i + 2..];
        Regroup(buf, text[i + 1], ReadString(text[i + 2..]).0);
        buf := buf + [text[i + 1]];
        i := i + 2;
      } else {
        assert here[1..] == text[i + 1..];
        Regroup(buf, text[i], ReadString(text[i + 1..]).0);
        buf := buf + [text[i]];
        i := i + 1;
      }
    }
    assert i < |text| ==> text[i..][1..] == text[i + 1..];
    assert buf + "" == buf;
    i := i + 1;
  }

  method ScanSymbol(text: string, start: nat) returns (buf: string, i: nat)
    requires start < |text| && !EndsSymbol(text[start])
    ensures start < i <= |text|
    ensures ReadSymbol(text[start..]) == (buf, text[i..])
  {
    i := start;
    buf := "";
    assert "" + ReadSymbol(text[i..]).0 == ReadSymbol(text[i..]).0;
    while i < |text| && !EndsSymbol(text[i])
      invariant start <= i <= |text|
      invariant ReadSymbol(text[start..]) == (buf + ReadSymbol(text[i..]).0, ReadSymbol(text[i..]).1)
      decreases |text| - i
    {
      assert text[i..][1..] == text[i + 1..];
      Regroup(buf, text[i], ReadSymbol(text[i + 1..]).0);
      buf := buf + [text[i]];
      i := i + 1;
    }
    assert buf + "" == buf;
  }

  method Tokenize(text: string) returns (tokens: seq<Token>)
    ensures tokens == Lex(text)
  {
    tokens := [];
    var i: nat := 0;
    assert From(text, 0) == text;
    while i < |text|
      invariant tokens + Lex(From(text, i)) == Lex(text)
      decreases |text| - i
    {
      var c := text[i];
      ghost var here := From(text, i);
      assert here[0] == c && here[1..] == From(text, i + 1);
      if c == '(' || c == ')' {
        var paren := if c == '(' then LP else RP;
        i := i + 1;
        Regroup(tokens, paren, Lex(From(text, i)));
        tokens := tokens + [paren];
      } else if c == '"' {
        var buf;
        assert text[i + 1..] == From(text, i + 1);
        buf, i := ScanString(text, i + 1);
        Regroup(tokens, Str(buf), Lex(From(text, i)));
        tokens := tokens + [Str(buf)];
      } else if IsSpace(c) {
        i := i + 1;
      } else {
        var buf;
        buf, i := ScanSymbol(text, i);
        assert text[i..] == From(text, i);
        Regroup(tokens, Sym(buf), Lex(From(text, i)));
        tokens := tokens + [Sym(buf)];
      }
    }
    assert tokens + [] == tokens;
  }

  // ---------------------------------------------------------------- the parser

  class Reader {
    const tokens: seq<Token>
    var pos: nat

    constructor (tokens: seq<Token>)
      ensures this.tokens == tokens && pos == 0
    {
      this.tokens, pos := tokens, 0;
    }

    ghost function Ahead(): seq<Token>
      requires pos <= |tokens|
      reads this
    {
      tokens[pos..]
    }

    // `parse_list`: it shares `pos` with its caller and with the calls it makes.
    method ParseList() returns (node: seq<Node>)
      requires pos <= |tokens|
      modifies this`pos
      ensures old(pos) <= pos <= |tokens|
      ensures (node, Ahead()) == Items(old(Ahead()))
      decreases |tokens| - pos
    {
      node := [];
      assert [] + Items(Ahead()).0 == Items(Ahead()).0;
      while pos < |tokens|
        invariant old(pos) <= pos <= |tokens|
        invariant Items(old(Ahead())) == (node + Items(Ahead()).0, Items(Ahead()).1)
        decreases |tokens| - pos
      {
        var token := tokens[pos];
        ghost var ahead := Ahead();
        ghost var before := node;
        assert ahead[0] == token && ahead[1..] == tokens[pos + 1..];
        if token == LP {
          pos := pos + 1;
          var kids := ParseList();
          node := node + [List(kids)];
          Regroup(before, List(kids), Items(Ahead()).0);
        } else if token == RP {
          pos := pos + 1;
          assert node + [] == node;
          return;
        } else {
          node := node + [AtomOf(token)];
          pos := pos + 1;
          Regroup(before, AtomOf(token), Items(Ahead()).0);
        }
      }
      assert Ahead() == [] && node + [] == node;
    }

    // The loop that calls it.
    method Parse() returns (top: seq<Node>)
      requires pos == 0
      modifies this`pos
      ensures top == Forest(tokens)
    {
      top := [];
      assert tokens[0..] == tokens;
      while pos < |tokens|
        invariant pos <= |tokens|
        invariant Forest(tokens) == top + Forest(Ahead())
        decreases |tokens| - pos
      {
        assert Ahead()[0] == tokens[pos] && Ahead()[1..] == tokens[pos + 1..];
        if tokens[pos] == LP {
          pos := pos + 1;
          var kids := ParseList();
          top := top + [List(kids)];
        } else {
          pos := pos + 1;
        }
      }
    }
  }

  // ---------------------------------------------------------------- printing

  function Escaped(s: string): string {
    if s == [] then [] else (if s[0] == '"' || s[0] == '\\' then ['\\', s[0]] else [s[0]]) + Escaped(s[1..])
  }

  function Print(n: Node): string {
    match n
    case StrAtom(s) => "\"" + Escaped(s) + "\""
    case SymAtom(s) => s
    case List(kids) => "(" + PrintAll(kids) + ")"
  }

  function PrintAll(ns: seq<Node>): string {
    if ns == [] then "" else Print(ns[0]) + " " + PrintAll(ns[1..])
  }

  function TokensOf(n: Node): seq<Token> {
    match n
    case StrAtom(s) => [Str(s)]
    case SymAtom(s) => [Sym(s)]
    case List(kids) => [LP] + AllTokens(kids) + [RP]
  }

  function AllTokens(ns: seq<Node>): seq<Token> {
    if ns == [] then [] else TokensOf(ns[0]) + AllTokens(ns[1..])
  }

  predicate IsSymbol(s: string) {
    s != [] && forall k :: 0 <= k < |s| ==> !EndsSymbol(s[k])
  }

  // Every symbol could have been read as one.
  predicate Readable(n: Node) {
    match n
    case StrAtom(_) => true
    case SymAtom(s) => IsSymbol(s)
    case List(kids) => AllReadable(kids)
  }

  predicate AllReadable(ns: seq<Node>) {
    ns == [] || (Readable(ns[0]) && AllReadable(ns[1..]))
  }

  predicate IsForest(ns: seq<Node>) {
    AllReadable(ns) && forall k :: 0 <= k < |ns| ==> ns[k].List?
  }

  // ---------------------------------------------------------------- reading back

  lemma {:induction false} StringReadsBack(s: string, tail: string)
    ensures ReadString(Escaped(s) + "\"" + tail) == (s, tail)
  {
    var t := Escaped(s) + "\"" + tail;
    if s == [] {
      assert t[1..] == tail;
    } else {
      StringReadsBack(s[1..], tail);
      var rest := Escaped(s[1..]) + "\"" + tail;
      if s[0] == '"' || s[0] == '\\' {
        assert t == ['\\', s[0]] + rest;
        assert t[2..] == rest;
      } else {
        assert t == [s[0]] + rest;
        assert t[1..] == rest;
      }
      assert [s[0]] + s[1..] == s;
    }
  }

  lemma {:induction false} SymbolReadsBack(s: string, tail: string)
    requires forall k :: 0 <= k < |s| ==> !EndsSymbol(s[k])
    requires tail != [] && EndsSymbol(tail[0])
    ensures ReadSymbol(s + tail) == (s, tail)
  {
    if s == [] {
      assert s + tail == tail;
    } else {
      assert (s + tail)[1..] == s[1..] + tail;
      SymbolReadsBack(s[1..], tail);
      assert [s[0]] + s[1..] == s;
    }
  }

  lemma StringLexes(s: string, tail: string)
    ensures Lex("\"" + Escaped(s) + "\"" + tail) == [Str(s)] + Lex(tail)
  {
    var t := "\"" + Escaped(s) + "\"" + tail;
    StringReadsBack(s, tail);
    assert t[1..] == Escaped(s) + "\"" + tail;
  }

  lemma SymbolLexes(s: string, tail: string)
    requires IsSymbol(s) && tail != [] && EndsSymbol(tail[0])
    ensures Lex(s + tail) == [Sym(s)] + Lex(tail)
  {
    SymbolReadsBack(s, tail);
    assert (s + tail)[0] == s[0];
  }

  lemma {:induction false} NodeLexes(n: Node, tail: string)
    requires Readable(n)
    ensures Lex(Print(n) + " " + tail) == TokensOf(n) + Lex(tail)
    decreases n, 1
  {
    var after := " " + tail;
    assert after[1..] == tail && Lex(after) == Lex(tail);
    match n {
      case StrAtom(s) =>
        StringLexes(s, after);
        assert Print(n) + " " + tail == "\"" + Escaped(s) + "\"" + after;
      case SymAtom(s) =>
        SymbolLexes(s, after);
        assert Print(n) + " " + tail == s + after;
      case List(kids) =>
        ListLexes(kids, after);
        assert Print(n) + " " + tail == "(" + PrintAll(kids) + ")" + after;
    }
  }

  lemma {:induction false} ListLexes(kids: seq<Node>, tail: string)
    requires AllReadable(kids)
    ensures Lex("(" + PrintAll(kids) + ")" + tail) == [LP] + AllTokens(kids) + [RP] + Lex(tail)
    decreases kids, 1
  {
    var t := "(" + PrintAll(kids) + ")" + tail;
    assert t[1..] == PrintAll(kids) + (")" + tail);
    NodesLex(kids, ")" + tail);
    assert (")" + tail)[1..] == tail;
    assert Lex(")" + tail) == [RP] + Lex(tail);
  }

  lemma {:induction false} NodesLex(ns: seq<Node>, tail: string)
    requires AllReadable(ns)
    ensures Lex(PrintAll(ns) + tail) == AllTokens(ns) + Lex(tail)
    decreases ns, 0
  {
    if ns == [] {
      assert PrintAll(ns) + tail == tail;
    } else {
      var rest := PrintAll(ns[1..]) + tail;
      assert PrintAll(ns) + tail == Print(ns[0]) + " " + rest;
      NodeLexes(ns[0], rest);
      NodesLex(ns[1..], tail);
    }
  }

  lemma {:induction false} NodeParses(n: Node, ts: seq<Token>)
    ensures Items(TokensOf(n) + ts) == ([n] + Items(ts).0, Items(ts).1)
    decreases n, 1
  {
    var all := TokensOf(n) + ts;
    match n {
      case List(kids) =>
        assert all[1..] == AllTokens(kids) + ([RP] + ts);
        NodesParse(kids, [RP] + ts);
        assert ([RP] + ts)[1..] == ts;
        assert kids + [] == kids;
      case _ =>
        assert all[1..] == ts;
    }
  }

  lemma {:induction false} NodesParse(ns: seq<Node>, ts: seq<Token>)
    ensures Items(AllTokens(ns) + ts) == (ns + Items(ts).0, Items(ts).1)
    decreases ns, 0
  {
    if ns == [] {
      assert AllTokens(ns) + ts == ts && ns + Items(ts).0 == Items(ts).0;
    } else {
      var rest := AllTokens(ns[1..]) + ts;
      assert AllTokens(ns) + ts == TokensOf(ns[0]) + rest;
      NodeParses(ns[0], rest);
      NodesParse(ns[1..], ts);
      Cons(ns, Items(ts).0);
    }
  }

  lemma Cons(ns: seq<Node>, more: seq<Node>)
    requires ns != []
    ensures [ns[0]] + (ns[1..] + more) == ns + more
  {}

  lemma {:induction false} ForestParses(ns: seq<Node>)
    requires forall k :: 0 <= k < |ns| ==> ns[k].List?
    ensures Forest(AllTokens(ns)) == ns
  {
    if ns != [] {
      var kids, rest := ns[0].kids, AllTokens(ns[1..]);
      var all := AllTokens(ns);
      assert ns[0] == List(kids);
      assert TokensOf(ns[0]) == [LP] + AllTokens(kids) + [RP];
      assert all == [LP] + AllTokens(kids) + [RP] + rest;
      assert all[1..] == AllTokens(kids) + ([RP] + rest);
      NodesParse(kids, [RP] + rest);
      assert ([RP] + rest)[1..] == rest;
      assert kids + [] == kids;
      ForestParses(ns[1..]);
    }
  }

  // ---------------------------------------------------------------- what can come out

  predicate SymbolsOk(ts: seq<Token>) {
    forall k :: 0 <= k < |ts| && ts[k].Sym? ==> IsSymbol(ts[k].text)
  }

  lemma {:induction false} LexedSymbolsAreOk(s: string)
    ensures SymbolsOk(Lex(s))
    decreases |s|
  {
    if s == [] {
    } else if s[0] == '"' {
      LexedSymbolsAreOk(ReadString(s[1..]).1);
    } else if EndsSymbol(s[0]) {
      LexedSymbolsAreOk(s[1..]);
    } else {
      LexedSymbolsAreOk(ReadSymbol(s).1);
    }
  }

  lemma {:induction false} ParsedItemsAreReadable(ts: seq<Token>)
    requires SymbolsOk(ts)
    ensures AllReadable(Items(ts).0) && SymbolsOk(Items(ts).1)
    decreases |ts|
  {
    if ts != [] {
      ParsedItemsAreReadable(ts[1..]);
      if ts[0] == LP {
        ParsedItemsAreReadable(Items(ts[1..]).1);
        var r := Items(ts).0;
        assert r[1..] == Items(Items(ts[1..]).1).0;
      } else if ts[0] != RP {
        var r := Items(ts).0;
        assert r[1..] == Items(ts[1..]).0;
      }
    }
  }

  lemma {:induction false} ForestsAreReadable(ts: seq<Token>)
    requires SymbolsOk(ts)
    ensures IsForest(Forest(ts))
    decreases |ts|
  {
    if ts == [] {
    } else if ts[0] == LP {
      ParsedItemsAreReadable(ts[1..]);
      ForestsAreReadable(Items(ts[1..]).1);
      var r := Forest(ts);
      assert r[1..] == Forest(Items(ts[1..]).1);
    } else {
      ForestsAreReadable(ts[1..]);
    }
  }

  /** Round trip: what a forest prints to reads back as that forest exactly when it is a forest of
      lists whose symbols are symbols. Strings may hold any characters. */
  lemma RoundTripIff(ns: seq<Node>)
    ensures Read(PrintAll(ns)) == ns <==> IsForest(ns)
  {
    if IsForest(ns) {
      NodesLex(ns, "");
      assert PrintAll(ns) + "" == PrintAll(ns) && AllTokens(ns) + [] == AllTokens(ns);
      ForestParses(ns);
    } else {
      LexedSymbolsAreOk(PrintAll(ns));
      ForestsAreReadable(Lex(PrintAll(ns)));
    }
  }

  /** Every text, unbalanced or not, has a canonical form that reads as the same forest. */
  lemma CanonicalFormReadsTheSame(text: string)
    ensures Read(PrintAll(Read(text))) == Read(text)
  {
    LexedSymbolsAreOk(text);
    ForestsAreReadable(Lex(text));
    RoundTripIff(Read(text));
  }

  lemma {:induction false} ClosingItems(ts: seq<Token>)
    ensures Items(ts + [RP]).0 == Items(ts).0
    ensures if Items(ts).1 == [] then Items(ts + [RP]).1 <= [RP] else Items(ts + [RP]).1 == Items(ts).1 + [RP]
    decreases |ts|
  {
    var all := ts + [RP];
    if ts == [] {
      assert all[1..] == [];
    } else {
      assert all[1..] == ts[1..] + [RP];
      if ts[0] != RP { ClosingItems(ts[1..]); }
      if ts[0] == LP {
        var rest := Items(ts[1..]).1;
        ClosingItems(rest);
        assert rest == [] ==> Items(Items(all[1..]).1).0 == [];
      }
    }
  }

  /** A missing closing parenthesis at the end is implied, and a stray one is ignored: one more there
      never changes what is read. */
  lemma {:induction false} ClosingAtTheEndIsImplied(ts: seq<Token>)
    ensures Forest(ts + [RP]) == Forest(ts)
    decreases |ts|
  {
    var all := ts + [RP];
    if ts == [] {
      assert all[1..] == [];
    } else {
      assert all[1..] == ts[1..] + [RP];
      if ts[0] == LP {
        ClosingItems(ts[1..]);
        var rest := Items(ts[1..]).1;
        if rest == [] {
          var rest' := Items(all[1..]).1;
          assert rest' == [] || rest' == [RP];
          assert Forest([RP]) == Forest([]) by { assert [RP][1..] == []; }
        } else {
          ClosingAtTheEndIsImplied(rest);
        }
      } else {
        ClosingAtTheEndIsImplied(ts[1..]);
      }
    }
  }

  // ---------------------------------------------------------------- spaces

  // Whether a quoted string that has been opened is closed in this text.
  predicate ClosesString(s: string) {
    s != [] &&
    if s[0] == '"' then true
    else if s[0] == '\\' && |s| > 1 then ClosesString(s[2..])
    else ClosesString(s[1..])
  }

  /** It is closed exactly when one more character at the end is no longer part of it. */
  lemma {:induction false} ClosedIff(s: string)
    ensures ClosesString(s) <==> ReadString(s + "x").0 == ReadString(s).0
    decreases |s|
  {
    var t := s + "x";
    if s == [] {
      assert t == "x" && ReadString("x").0 == ['x'] + ReadString([]).0;
    } else if s[0] == '\\' && |s| > 1 {
      assert t[2..] == s[2..] + "x";
      ClosedIff(s[2..]);
      SameHead(s[1], ReadString(t[2..]).0, ReadString(s[2..]).0);
    } else if s == "\\" {
      assert t[1] == 'x' && ReadString(t).0[0] == 'x' && ReadString(s).0[0] == '\\';
    } else if s[0] != '"' {
      assert t[1..] == s[1..] + "x";
      ClosedIff(s[1..]);
      SameHead(s[0], ReadString(t[1..]).0, ReadString(s[1..]).0);
    }
  }

  lemma SameHead(c: char, a: string, b: string)
    ensures [c] + a == [c] + b <==> a == b
  {
    assert ([c] + a)[1..] == a && ([c] + b)[1..] == b;
  }

  // No quoted string is left open at the end of this text.
  predicate Complete(s: string)
    decreases |s|
  {
    if s == [] then true
    else if s[0] == '(' || s[0] == ')' then Complete(s[1..])
    else if s[0] == '"' then ClosesString(s[1..]) && Complete(ReadString(s[1..]).1)
    else if IsSpace(s[0]) then Complete(s[1..])
    else Complete(ReadSymbol(s).1)
  }

  lemma {:induction false} ClosedStringStays(s: string, more: string)
    requires ClosesString(s)
    ensures ReadString(s + more) == (ReadString(s).0, ReadString(s).1 + more)
    decreases |s|
  {
    var t := s + more;
    if s[0] == '"' {
      assert t[1..] == s[1..] + more;
    } else if s[0] == '\\' && |s| > 1 {
      assert t[2..] == s[2..] + more;
      ClosedStringStays(s[2..], more);
    } else {
      assert t[1..] == s[1..] + more;
      ClosedStringStays(s[1..], more);
    }
  }

  lemma {:induction false} SymbolStays(s: string, more: string)
    requires more != [] && EndsSymbol(more[0])
    ensures ReadSymbol(s + more) == (ReadSymbol(s).0, ReadSymbol(s).1 + more)
    decreases |s|
  {
    if s == [] {
      assert s + more == more;
    } else if !EndsSymbol(s[0]) {
      assert (s + more)[1..] == s[1..] + more;
      SymbolStays(s[1..], more);
    }
  }

  lemma {:induction false} SpaceSplits(a: string, c: char, b: string)
    requires Complete(a) && IsSpace(c)
    ensures Lex(a + [c] + b) == Lex(a) + Lex(b)
    decreases |a|
  {
    var more := [c] + b;
    var t := a + more;
    assert a + [c] + b == t;
    if a == [] {
      assert t == more && more[1..] == b;
    } else if a[0] == '"' {
      assert t[1..] == a[1..] + more;
      ClosedStringStays(a[1..], more);
      var rest := ReadString(a[1..]).1;
      SpaceSplits(rest, c, b);
      assert rest + [c] + b == rest + more;
      Prefixed(Str(ReadString(a[1..]).0), Lex(rest), Lex(b));
    } else if a[0] == '(' || a[0] == ')' || IsSpace(a[0]) {
      assert t[1..] == a[1..] + more && a[1..] + [c] + b == a[1..] + more;
      SpaceSplits(a[1..], c, b);
      Prefixed(if a[0] == '(' then LP else RP, Lex(a[1..]), Lex(b));
    } else {
      SymbolStays(a, more);
      var rest := ReadSymbol(a).1;
      assert ReadSymbol(a).0 != [] && |rest| < |a|;
      SpaceSplits(rest, c, b);
      assert rest + [c] + b == rest + more;
      Prefixed(Sym(ReadSymbol(a).0), Lex(rest), Lex(b));
    }
  }

  lemma Prefixed(t: Token, a: seq<Token>, b: seq<Token>)
    ensures [t] + (a + b) == ([t] + a) + b
  {}

  // The code points that separate tokens: the control characters from tab to carriage return and the four
  // information separators, the blank, and the spaces, line separators and no-break spaces of Unicode.
  const SPACES: set<int> := {
    0x09, 0x0A, 0x0B, 0x0C, 0x0D, 0x1C, 0x1D, 0x1E, 0x1F, 0x20, 0x85, 0xA0, 0x1680, 0x2000, 0x2001, 0x2002, 0x2003, 0x2004,
    0x2005, 0x2006, 0x2007, 0x2008, 0x2009, 0x200A, 0x2028, 0x2029, 0x202F, 0x205F, 0x3000
  }

  lemma SpacesAre(c: char)
    ensures IsSpace(c) <==> c as int in SPACES
  {}

  /** Between tokens every kind of space separates what is before it from what is after. */
  lemma SpacesSeparate(a: string, c: char, b: string)
    requires Complete(a) && c as int in SPACES
    ensures Lex(a + [c] + b) == Lex(a) + Lex(b)
  {
    SpacesAre(c);
    SpaceSplits(a, c, b);
  }

  /** And nothing else does: a run of any other characters but the parentheses and the quote is one symbol. */
  lemma {:induction false} OtherCharactersAreOneSymbol(s: string)
    requires s != [] && forall k :: 0 <= k < |s| ==> s[k] as int !in SPACES && s[k] !in {'(', ')', '"'}
    ensures Lex(s) == [Sym(s)]
  {
    forall k | 0 <= k < |s| ensures !EndsSymbol(s[k]) { SpacesAre(s[k]); }
    WholeSymbol(s);
  }

  lemma {:induction false} WholeSymbol(s: string)
    requires forall k :: 0 <= k < |s| ==> !EndsSymbol(s[k])
    ensures ReadSymbol(s) == (s, [])
  {
    if s != [] {
      WholeSymbol(s[1..]);
      assert [s[0]] + s[1..] == s;
    }
  }
}
