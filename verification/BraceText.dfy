/**
 * The brace scanner of the extractor and the language it recognises: texts whose
 * braces nest outside string literals.
 */
module BraceText {
  import opened Prelude

  datatype Mode = Plain | InString | Escaped

  // Characters up to and including the brace that closes depth `depth`, if it is ever closed.
  function Scan(s: string, depth: int, mode: Mode): (r: Option<nat>)
    ensures r.Some? ==> 0 < r.value <= |s|
  {
    if s == "" then None
    else
      match mode
      case Escaped => Shift(1, Scan(s[1..], depth, InString))
      case InString =>
        Shift(1, Scan(s[1..], depth, if s[0] == '\\' then Escaped else if s[0] == '"' then Plain else InString))
      case Plain =>
        if s[0] == '"' then Shift(1, Scan(s[1..], depth, InString))
        else if s[0] == '{' then Shift(1, Scan(s[1..], depth + 1, Plain))
        else if s[0] == '}' then if depth == 1 then Some(1) else Shift(1, Scan(s[1..], depth - 1, Plain))
        else Shift(1, Scan(s[1..], depth, Plain))
  }

  function Shift(n: nat, o: Option<nat>): Option<nat> {
    if o == None then None else Some(n + o.value)
  }

  // ---- The language ----

  datatype StrChar = Raw(c: char) | Esc(c: char)

  datatype Item = Char(c: char) | Str(body: seq<StrChar>) | Block(items: Items)
  datatype Items = Nil | Cons(head: Item, tail: Items)

  function StrText(body: seq<StrChar>): string {
    if body == [] then ""
    else (match body[0] case Raw(c) => [c] case Esc(c) => ['\\', c]) + StrText(body[1..])
  }

  function Text(item: Item): string {
    match item
    case Char(c) => [c]
    case Str(body) => "\"" + StrText(body) + "\""
    case Block(items) => "{" + TextAll(items) + "}"
  }

  function TextAll(items: Items): string {
    match items
    case Nil => ""
    case Cons(head, tail) => Text(head) + TextAll(tail)
  }

  predicate GoodBody(body: seq<StrChar>) {
    forall x <- body :: x.Raw? ==> x.c != '"' && x.c != '\\'
  }

  predicate Good(item: Item) {
    match item
    case Char(c) => c != '"' && c != '{' && c != '}'
    case Str(body) => GoodBody(body)
    case Block(items) => GoodAll(items)
  }

  predicate GoodAll(items: Items) {
    items.Cons? ==> Good(items.head) && GoodAll(items.tail)
  }

  // `s` is one balanced block, from its opening brace to its own closing brace.
  ghost predicate Balanced(s: string) {
    exists items :: GoodAll(items) && s == Text(Block(items))
  }

  // ---- Every text of the language is scanned to its end ----

  lemma Reassociate(a: string, b: string, c: string)
    ensures (a + b) + c == a + (b + c)
  {
  }

  lemma FrontChar(c: char, rest: string)
    ensures ([c] + rest)[0] == c && ([c] + rest)[1..] == rest
  {
  }

  lemma ScanStrChar(x: StrChar, tail: string, depth: int)
    requires GoodBody([x])
    ensures Scan(StrText([x]) + tail, depth, InString) == Shift(|StrText([x])|, Scan(tail, depth, InString))
  {
    assert x in [x] && StrText([x]) == if x.Raw? then [x.c] else ['\\', x.c];
    FrontChar(x.c, tail);
    if x.Esc? {
      assert StrText([x]) + tail == ['\\'] + ([x.c] + tail);
      FrontChar('\\', [x.c] + tail);
    }
  }

  lemma {:induction false} ScanBody(body: seq<StrChar>, rest: string, depth: int)
    requires GoodBody(body)
    ensures Scan(StrText(body) + rest, depth, InString) == Shift(|StrText(body)|, Scan(rest, depth, InString))
  {
    if body == [] {
      assert "" + rest == rest;
    } else {
      ScanBody(body[1..], rest, depth);
      ScanStrChar(body[0], StrText(body[1..]) + rest, depth);
      assert StrText(body) == StrText([body[0]]) + StrText(body[1..]);
      Reassociate(StrText([body[0]]), StrText(body[1..]), rest);
    }
  }

  lemma {:induction false} ScanItem(item: Item, rest: string, depth: int)
    requires Good(item) && depth >= 1
    ensures Scan(Text(item) + rest, depth, Plain) == Shift(|Text(item)|, Scan(rest, depth, Plain))
    decreases item
  {
    match item
    case Char(c) => FrontChar(c, rest);
    case Str(body) =>
      ScanBody(body, "\"" + rest, depth);
      Wrapped('"', StrText(body), '"', rest);
      FrontChar('"', rest);
    case Block(items) =>
      ScanItems(items, "}" + rest, depth + 1);
      Wrapped('{', TextAll(items), '}', rest);
      FrontChar('}', rest);
  }

  lemma Wrapped(open: char, inner: string, close: char, rest: string)
    ensures var s := ([open] + inner + [close]) + rest; s != "" && s[0] == open && s[1..] == inner + ([close] + rest)
  {
  }

  lemma {:induction false} ScanItems(items: Items, rest: string, depth: int)
    requires GoodAll(items) && depth >= 1
    ensures Scan(TextAll(items) + rest, depth, Plain) == Shift(|TextAll(items)|, Scan(rest, depth, Plain))
    decreases items
  {
    match items
    case Nil => assert "" + rest == rest;
    case Cons(head, tail) =>
      ScanItem(head, TextAll(tail) + rest, depth);
      ScanItems(tail, rest, depth);
      assert TextAll(items) + rest == Text(head) + (TextAll(tail) + rest);
  }

  lemma {:induction false} ScanBlock(items: Items, rest: string)
    requires GoodAll(items)
    ensures Scan(Text(Block(items)) + rest, 0, Plain) == Some(|Text(Block(items))|)
  {
    var s := Text(Block(items)) + rest;
    ScanItems(items, "}" + rest, 1);
    assert s[1..] == TextAll(items) + ("}" + rest);
  }

  // ---- Whatever the scan accepts is in the language ----

  // The open blocks still to be closed, innermost first.
  datatype Stack = Empty | Open(items: Items, below: Stack) {
    function Depth(): nat {
      if Empty? then 0 else 1 + below.Depth()
    }

    predicate Good() {
      Open? ==> GoodAll(items) && below.Good()
    }
  }

  function Closing(stack: Stack): string {
    match stack
    case Empty => ""
    case Open(items, below) => TextAll(items) + ("}" + Closing(below))
  }

  // The innermost open block gains a first item.
  function Prepend(head: Item, stack: Stack): Stack
    requires stack.Open?
  {
    Open(Cons(head, stack.items), stack.below)
  }

  lemma PrependText(head: Item, stack: Stack)
    requires stack.Open? && Good(head) && stack.Good()
    ensures Closing(Prepend(head, stack)) == Text(head) + Closing(stack) && Prepend(head, stack).Good()
  {
    Reassociate(Text(head), TextAll(stack.items), "}" + Closing(stack.below));
  }

  lemma PrependStr(body: seq<StrChar>, stack: Stack)
    requires stack.Open? && GoodBody(body) && stack.Good()
    ensures Closing(Prepend(Str(body), stack)) == "\"" + (StrText(body) + ("\"" + Closing(stack)))
            && Prepend(Str(body), stack).Good()
  {
    PrependText(Str(body), stack);
    Reassociate("\"" + StrText(body), "\"", Closing(stack));
    Reassociate("\"", StrText(body), "\"" + Closing(stack));
  }

  lemma PrependBlock(items: Items, stack: Stack)
    requires stack.Open? && GoodAll(items) && stack.Good()
    ensures Closing(Prepend(Block(items), stack)) == "{" + (TextAll(items) + ("}" + Closing(stack)))
            && Prepend(Block(items), stack).Good()
  {
    PrependText(Block(items), stack);
    Reassociate("{" + TextAll(items), "}", Closing(stack));
    Reassociate("{", TextAll(items), "}" + Closing(stack));
  }

  // What is left to scan, when the scan stops after `n` characters.
  ghost predicate Explains(s: string, mode: Mode, body: seq<StrChar>, stack: Stack) {
    && GoodBody(body) && stack.Good()
    && match mode
       case Plain => s == Closing(stack)
       case InString => s == StrText(body) + ("\"" + Closing(stack))
       case Escaped => s != "" && s[1..] == StrText(body) + ("\"" + Closing(stack))
  }

  lemma HeadAndTail(s: string, n: nat)
    requires 0 < n <= |s|
    ensures s[..n] == [s[0]] + s[1..][..n - 1] && s[..n][1..] == s[1..][..n - 1]
  {
  }

  lemma {:induction false} ParsePlain(s: string, depth: int) returns (stack: Stack)
    requires depth >= 1 && Scan(s, depth, Plain).Some?
    ensures stack.Depth() == depth && Explains(s[..Scan(s, depth, Plain).value], Plain, [], stack)
    decreases |s|
  {
    HeadAndTail(s, Scan(s, depth, Plain).value);
    if s[0] == '"' {
      var body, below := ParseString(s[1..], depth, InString);
      PrependStr(body, below);
      stack := Prepend(Str(body), below);
    } else if s[0] == '{' {
      var below := ParsePlain(s[1..], depth + 1);
      PrependBlock(below.items, below.below);
      stack := Prepend(Block(below.items), below.below);
    } else if s[0] == '}' {
      var below := Empty;
      if depth > 1 { below := ParsePlain(s[1..], depth - 1); }
      stack := Open(Nil, below);
    } else {
      var below := ParsePlain(s[1..], depth);
      PrependText(Char(s[0]), below);
      stack := Prepend(Char(s[0]), below);
    }
  }

  lemma {:induction false} ParseString(s: string, depth: int, mode: Mode) returns (body: seq<StrChar>, stack: Stack)
    requires depth >= 1 && mode != Plain && Scan(s, depth, mode).Some?
    ensures stack.Depth() == depth && Explains(s[..Scan(s, depth, mode).value], mode, body, stack)
    decreases |s|
  {
    var n := Scan(s, depth, mode).value;
    HeadAndTail(s, n);
    if mode == Escaped {
      body, stack := ParseString(s[1..], depth, InString);
    } else if s[0] == '\\' {
      var rest;
      rest, stack := ParseString(s[1..], depth, Escaped);
      HeadAndTail(s[1..], n - 1);
      body := [Esc(s[1])] + rest;
      EscText(s[1], rest, "\"" + Closing(stack));
      assert s[..n] == ['\\'] + ([s[1]] + (StrText(rest) + ("\"" + Closing(stack))));
    } else if s[0] == '"' {
      body := [];
      stack := ParsePlain(s[1..], depth);
    } else {
      var rest;
      rest, stack := ParseString(s[1..], depth, InString);
      body := [Raw(s[0])] + rest;
      assert body[1..] == rest;
      Reassociate([s[0]], StrText(rest), "\"" + Closing(stack));
    }
  }

  lemma EscText(c: char, rest: seq<StrChar>, after: string)
    ensures StrText([Esc(c)] + rest) + after == ['\\'] + ([c] + (StrText(rest) + after))
  {
    assert ([Esc(c)] + rest)[1..] == rest;
  }

  lemma {:induction false} ScanStopsAtBlock(s: string, n: nat)
    requires n <= |s| && Balanced(s[..n])
    ensures Scan(s, 0, Plain) == Some(n)
  {
    var items :| GoodAll(items) && s[..n] == Text(Block(items));
    ScanBlock(items, s[n..]);
    assert s[..n] + s[n..] == s;
  }

  lemma {:induction false} StopIsBlock(s: string)
    requires s != "" && s[0] == '{' && Scan(s, 0, Plain).Some?
    ensures Balanced(s[..Scan(s, 0, Plain).value])
  {
    var n := Scan(s, 0, Plain).value;
    HeadAndTail(s, n);
    var stack := ParsePlain(s[1..], 1);
    assert stack.below == Empty && Closing(stack) == TextAll(stack.items) + "}" by { assert "}" + "" == "}"; }
    Reassociate("{", TextAll(stack.items), "}");
    assert s[..n] == "{" + (TextAll(stack.items) + "}");
    assert GoodAll(stack.items) && s[..n] == Text(Block(stack.items));
  }

  /**
   * From an opening brace, the scan stops at n iff the first n characters are a balanced block;
   * so at most one beginning of a text is balanced, and the scan fails iff none is.
   */
  lemma ScanFindsTheBlock(s: string, n: nat)
    requires s != "" && s[0] == '{' && n <= |s|
    ensures Balanced(s[..n]) <==> Scan(s, 0, Plain) == Some(n)
  {
    if Balanced(s[..n]) { ScanStopsAtBlock(s, n); }
    if Scan(s, 0, Plain) == Some(n) { StopIsBlock(s); }
  }
}
