/** Extraction of the first JSON object from model output, against a JSON printer (RFC 8259). */
module JsonExtract {
  import opened Prelude
  import opened BraceText
  import opened JsStrings

  predicate FenceAt(s: string, i: nat) {
    i + 3 <= |s| && s[i] == '`' && s[i + 1] == '`' && s[i + 2] == '`'
  }

  // First triple backtick at or after `from`.
  function FindFence(s: string, from: nat): (r: Option<nat>)
    ensures r.Some? ==> from <= r.value && FenceAt(s, r.value) && forall k | from <= k < r.value :: !FenceAt(s, k)
    ensures r == None ==> forall k | from <= k :: !FenceAt(s, k)
    decreases |s| - from
  {
    if from >= |s| then None else if FenceAt(s, from) then Some(from) else FindFence(s, from + 1)
  }

  // An optional language tag `json`, in any case, right after the opening fence.
  function SkipTag(s: string): string {
    if |s| >= 4 && (s[0] == 'j' || s[0] == 'J') && (s[1] == 's' || s[1] == 'S') && (s[2] == 'o' || s[2] == 'O') && (s[3] == 'n' || s[3] == 'N')
    then s[4..] else s
  }

  // The lazy fence expression: the text between the first fence and the next one, tag and space skipped.
  function Candidate(text: string): string {
    var trimmed := Trim(text);
    var open := FindFence(trimmed, 0);
    if open == None then trimmed
    else
      var close := FindFence(trimmed, open.value + 3);
      if close == None then trimmed else Trim(SkipTag(trimmed[open.value + 3..close.value]))
  }

  datatype Extraction = Object(json: string) | NoObject | Unbalanced

  function FirstBrace(s: string): (r: Option<nat>)
    ensures r.Some? ==> r.value < |s| && s[r.value] == '{' && '{' !in s[..r.value]
    ensures r == None ==> '{' !in s
  {
    if s == "" then None
    else if s[0] == '{' then Some(0)
    else
      var rest := FirstBrace(s[1..]);
      if rest == None then None
      else
        assert s[..rest.value + 1] == [s[0]] + s[1..][..rest.value];
        Some(rest.value + 1)
  }

  function Extract(text: string): Extraction {
    var candidate := Candidate(text);
    var start := FirstBrace(candidate);
    if start == None then NoObject
    else
      match Scan(candidate[start.value..], 0, Plain)
      case None => Unbalanced
      case Some(n) => Object(candidate[start.value..][..n])
  }

  // The scanning loop: the index just past the brace that closes the one at `start`.
  method FindClose(s: string, start: nat) returns (end: Option<nat>)
    requires start < |s| && s[start] == '{'
    ensures end == Shift(start, Scan(s[start..], 0, Plain))
    ensures end.Some? ==> start < end.value <= |s|
  {
    var depth, mode, i := 0, Plain, start;
    while i < |s|
      invariant start <= i <= |s| && (if i == start then depth == 0 && mode == Plain else depth >= 1)
      invariant Scan(s[start..], 0, Plain) == Shift(i - start, Scan(s[i..], depth, mode))
    {
      var ch := s[i];
      assert s[i..][0] == ch && s[i..][1..] == s[i + 1..];
      i := i + 1;
      if mode != Plain {
        mode := if mode == Escaped then InString else if ch == '\\' then Escaped else if ch == '"' then Plain else InString;
        continue;
      }
      if ch == '"' {
        mode := InString;
      } else if ch == '{' {
        depth := depth + 1;
      } else if ch == '}' {
        depth := depth - 1;
        if depth == 0 { return Some(i); }
      }
    }
    return None;
  }

  method ExtractJsonObject(text: string) returns (r: Extraction)
    ensures r == Extract(text)
  {
    var candidate := Candidate(text);
    var start := FirstBrace(candidate);
    if start == None { return NoObject; }
    var end := FindClose(candidate, start.value);
    if end == None { return Unbalanced; }
    assert candidate[start.value..][..end.value - start.value] == candidate[start.value..end.value];
    return Object(candidate[start.value..end.value]);
  }

  ghost predicate BlockAt(s: string, start: nat, n: nat) {
    start + n <= |s| && Balanced(s[start..start + n])
  }

  /**
   * The result is a balanced block iff one begins at the candidate's first brace, and then it is
   * the only one, so also the shortest; without a brace there is no object.
   */
  lemma ExtractsTheOnlyBlock(text: string)
    ensures var candidate, r := Candidate(text), Extract(text);
            match FirstBrace(candidate)
            case None => r == NoObject
            case Some(start) =>
              && (r == Unbalanced || r.Object?)
              && forall n: nat :: BlockAt(candidate, start, n) <==> start + n <= |candidate| && r == Object(candidate[start..start + n])
  {
    var candidate := Candidate(text);
    var first := FirstBrace(candidate);
    if first.Some? { BlocksAreScanned(candidate, first.value); }
  }

  lemma BlocksAreScanned(s: string, start: nat)
    requires start < |s| && s[start] == '{'
    ensures var found := Scan(s[start..], 0, Plain);
            forall n: nat :: BlockAt(s, start, n) <==> start + n <= |s| && found.Some? && s[start..][..found.value] == s[start..start + n]
  {
    var found := Scan(s[start..], 0, Plain);
    forall n: nat | start + n <= |s|
      ensures BlockAt(s, start, n) <==> found.Some? && s[start..][..found.value] == s[start..start + n]
    {
      ScanFindsTheBlock(s[start..], n);
      assert s[start..][..n] == s[start..start + n];
    }
  }

  // ---- Where the candidate stands in the text ----

  // The tag in any case.
  ghost predicate IsTag(tag: string) {
    |tag| == 4 && forall i | 0 <= i < 4 :: tag[i] == "json"[i] || tag[i] == "JSON"[i]
  }

  // No fence is closed: no two fences stand apart.
  ghost predicate NoFencePair(s: string) {
    forall i: nat, j: nat | FenceAt(s, i) && FenceAt(s, j) :: j < i + 3
  }

  // The first fence and the first one after it.
  ghost predicate FirstBlock(s: string, open: nat, close: nat) {
    && FenceAt(s, open) && FenceAt(s, close) && open + 3 <= close
    && forall i: nat | FenceAt(s, i) :: i == open || (open < i < open + 3) || i >= close
  }

  lemma TagIsSkipped(s: string)
    ensures SkipTag(s) == if |s| >= 4 && IsTag(s[..4]) then s[4..] else s
  {
    if |s| >= 4 {
      var tag := s[..4];
      assert IsTag(tag) ==> (tag[0] == 'j' || tag[0] == 'J') && (tag[1] == 's' || tag[1] == 'S')
                            && (tag[2] == 'o' || tag[2] == 'O') && (tag[3] == 'n' || tag[3] == 'N');
    }
  }

  /**
   * The candidate is what the first fence and the next one enclose, without a tag and trimmed; a text without
   * two fences, so also one that opens a fence and never closes it, is its own candidate.
   */
  lemma CandidateStandsInTheFirstBlock(text: string) returns (open: nat, close: nat)
    ensures NoFencePair(Trim(text)) ==> Candidate(text) == Trim(text)
    ensures !NoFencePair(Trim(text)) ==> FirstBlock(Trim(text), open, close)
    ensures !NoFencePair(Trim(text)) ==>
              var block := Trim(text)[open + 3..close];
              Candidate(text) == Trim(if |block| >= 4 && IsTag(block[..4]) then block[4..] else block)
  {
    var t := Trim(text);
    var first := FindFence(t, 0);
    open := if first == None then 0 else first.value;
    var second := FindFence(t, open + 3);
    close := if second == None then 0 else second.value;
    if first.Some? && second.Some? {
      assert FenceAt(t, open) && FenceAt(t, close);
      TagIsSkipped(t[open + 3..close]);
    } else {
      assert forall i: nat | FenceAt(t, i) :: open <= i < open + 3;
    }
  }

  // ---- JSON values and their printed form ----

  datatype Json =
    | JNull
    | JBool(b: bool)
    | JNumber(lexeme: string)
    | JString(s: string)
    | JArray(elems: Elements)
    | JObject(members: Members)
  datatype Elements = NoElement | Element(head: Json, tail: Elements)
  datatype Members = NoMember | Member(key: string, value: Json, tail: Members)

  // The characters of a number (section 6 of RFC 8259).
  predicate NumberText(s: string) {
    forall c <- s :: '0' <= c <= '9' || c == '+' || c == '-' || c == '.' || c == 'e' || c == 'E'
  }

  predicate JsonSpace(s: string) {
    forall c <- s :: IsJsonSpace(c)
  }

  function Hex(d: nat): char
    requires d < 16
  {
    "0123456789abcdef"[d]
  }

  // Section 7 of RFC 8259: quote, backslash and control characters are escaped.
  function EscapeChar(c: char): (r: seq<StrChar>)
    ensures GoodBody(r)
  {
    if c == '"' || c == '\\' then [Esc(c)]
    else if c == '\n' then [Esc('n')]
    else if c == '\r' then [Esc('r')]
    else if c == '\t' then [Esc('t')]
    else if c as int == 8 then [Esc('b')]
    else if c as int == 12 then [Esc('f')]
    else if c < ' ' then [Esc('u'), Raw('0'), Raw('0'), Raw(Hex(c as int / 16)), Raw(Hex(c as int % 16))]
    else [Raw(c)]
  }

  function EscapeAll(s: string): (r: seq<StrChar>)
    ensures GoodBody(r)
  {
    if s == "" then [] else EscapeChar(s[0]) + EscapeAll(s[1..])
  }

  function Quote(s: string): string {
    "\"" + StrText(EscapeAll(s)) + "\""
  }

  // `gap` is white space printed inside brackets and after separators.
  function Print(v: Json, gap: string): string {
    match v
    case JNull => "null"
    case JBool(b) => if b then "true" else "false"
    case JNumber(lexeme) => lexeme
    case JString(s) => Quote(s)
    case JArray(elems) => "[" + gap + PrintElements(elems, gap) + "]"
    case JObject(members) => "{" + (gap + PrintMembers(members, gap)) + "}"
  }

  function PrintElements(elems: Elements, gap: string): string {
    match elems
    case NoElement => ""
    case Element(head, tail) => Print(head, gap) + gap + (if tail.NoElement? then "" else "," + gap) + PrintElements(tail, gap)
  }

  function PrintMembers(members: Members, gap: string): string {
    match members
    case NoMember => ""
    case Member(key, value, tail) =>
      Quote(key) + ":" + gap + Print(value, gap) + gap + (if tail.NoMember? then "" else "," + gap) + PrintMembers(tail, gap)
  }

  ghost predicate Numeric(v: Json) {
    match v
    case JNumber(lexeme) => NumberText(lexeme)
    case JArray(elems) => NumericElements(elems)
    case JObject(members) => NumericMembers(members)
    case _ => true
  }

  ghost predicate NumericElements(elems: Elements) {
    elems.Element? ==> Numeric(elems.head) && NumericElements(elems.tail)
  }

  ghost predicate NumericMembers(members: Members) {
    members.Member? ==> Numeric(members.value) && NumericMembers(members.tail)
  }

  // ---- A printed value is a run of good items ----

  ghost predicate Itemised(s: string) {
    exists items :: GoodAll(items) && TextAll(items) == s
  }

  function Join(a: Items, b: Items): Items {
    match a
    case Nil => b
    case Cons(head, tail) => Cons(head, Join(tail, b))
  }

  lemma {:induction false} JoinText(a: Items, b: Items)
    requires GoodAll(a) && GoodAll(b)
    ensures GoodAll(Join(a, b)) && TextAll(Join(a, b)) == TextAll(a) + TextAll(b)
  {
    match a
    case Nil => assert "" + TextAll(b) == TextAll(b);
    case Cons(head, tail) =>
      JoinText(tail, b);
      Reassociate(Text(head), TextAll(tail), TextAll(b));
  }

  lemma Both(s: string, t: string)
    requires Itemised(s) && Itemised(t)
    ensures Itemised(s + t)
  {
    var a :| GoodAll(a) && TextAll(a) == s;
    var b :| GoodAll(b) && TextAll(b) == t;
    JoinText(a, b);
  }

  lemma {:induction false} PlainText(s: string)
    requires '"' !in s && '{' !in s && '}' !in s
    ensures Itemised(s)
  {
    if s == "" {
      assert TextAll(Nil) == s;
    } else {
      PlainText(s[1..]);
      var items :| GoodAll(items) && TextAll(items) == s[1..];
      assert [s[0]] + s[1..] == s;
      var all := Cons(Char(s[0]), items);
      assert Text(all.head) == [s[0]] && GoodAll(all);
      assert TextAll(all) == s;
    }
  }

  lemma SingleText(item: Item, text: string)
    requires text == Text(item)
    ensures TextAll(Cons(item, Nil)) == text
  {
    assert TextAll(Nil) == "" && text + "" == text;
  }

  lemma One(item: Item)
    requires Good(item)
    ensures Itemised(Text(item))
  {
    SingleText(item, Text(item));
    assert GoodAll(Cons(item, Nil));
  }

  lemma NumberItems(s: string)
    requires NumberText(s)
    ensures Itemised(s)
  {
    PlainText(s);
  }

  lemma {:induction false} ValueItems(v: Json, gap: string)
    requires JsonSpace(gap) && Numeric(v)
    ensures Itemised(Print(v, gap))
    decreases v, 0
  {
    match v
    case JString(s) => One(Str(EscapeAll(s)));
    case JArray(elems) =>
      PlainText("[" + gap);
      ElementItems(elems, gap);
      Both("[" + gap, PrintElements(elems, gap));
      PlainText("]");
      Both("[" + gap + PrintElements(elems, gap), "]");
    case JObject(members) =>
      var inner := ObjectItems(members, gap);
      One(Block(inner));
    case JNumber(lexeme) => NumberItems(lexeme);
    case JBool(b) => PlainText(if b then "true" else "false");
    case JNull => PlainText("null");
  }

  lemma {:induction false} ElementItems(elems: Elements, gap: string)
    requires JsonSpace(gap) && NumericElements(elems)
    ensures Itemised(PrintElements(elems, gap))
    decreases elems, 0
  {
    match elems
    case NoElement => PlainText("");
    case Element(head, tail) =>
      var sep := if tail.NoElement? then "" else "," + gap;
      ValueItems(head, gap);
      ElementItems(tail, gap);
      PlainText(gap);
      PlainText(sep);
      Both(Print(head, gap), gap);
      Both(Print(head, gap) + gap, sep);
      Both(Print(head, gap) + gap + sep, PrintElements(tail, gap));
  }

  lemma {:induction false} MemberItems(members: Members, gap: string)
    requires JsonSpace(gap) && NumericMembers(members)
    ensures Itemised(PrintMembers(members, gap))
    decreases members, 0
  {
    match members
    case NoMember => PlainText("");
    case Member(key, value, tail) =>
      var sep := if tail.NoMember? then "" else "," + gap;
      One(Str(EscapeAll(key)));
      ValueItems(value, gap);
      MemberItems(tail, gap);
      PlainText(":");
      PlainText(gap);
      PlainText(sep);
      Both(Quote(key), ":");
      Both(Quote(key) + ":", gap);
      Both(Quote(key) + ":" + gap, Print(value, gap));
      Both(Quote(key) + ":" + gap + Print(value, gap), gap);
      Both(Quote(key) + ":" + gap + Print(value, gap) + gap, sep);
      Both(Quote(key) + ":" + gap + Print(value, gap) + gap + sep, PrintMembers(tail, gap));
  }

  lemma {:induction false} ObjectItems(members: Members, gap: string) returns (inner: Items)
    requires JsonSpace(gap) && NumericMembers(members)
    ensures GoodAll(inner) && Text(Block(inner)) == Print(JObject(members), gap)
    decreases members, 1
  {
    PlainText(gap);
    MemberItems(members, gap);
    Both(gap, PrintMembers(members, gap));
    inner :| GoodAll(inner) && TextAll(inner) == gap + PrintMembers(members, gap);
  }

  // ---- Trimming and fences around a printed object ----

  // Trimming text around a core with no space at either end.
  lemma TrimAround(prefix: string, core: string, suffix: string)
    requires core != "" && !IsSpace(core[0]) && !IsSpace(core[|core| - 1])
    ensures Trim(prefix + (core + suffix)) == TrimStart(prefix) + (core + TrimEnd(suffix))
  {
    TrimStartBefore(prefix, core + suffix);
    Reassociate(TrimStart(prefix), core, suffix);
    TrimEndAfter(TrimStart(prefix) + core, suffix);
    Reassociate(TrimStart(prefix), core, TrimEnd(suffix));
  }

  ghost predicate NoFence(s: string) {
    forall i: nat :: !FenceAt(s, i)
  }

  lemma NoPairInside(prefix: string, core: string, suffix: string)
    requires core != "" && !IsSpace(core[0]) && !IsSpace(core[|core| - 1]) && NoFencePair(prefix + (core + suffix))
    ensures NoFencePair(TrimStart(prefix) + (core + TrimEnd(suffix)))
  {
    TrimStartBefore(prefix, core);
    TrimEndAfter(core, suffix);
    var k :| 0 <= k <= |prefix| && TrimStart(prefix) == prefix[k..];
    var m :| 0 <= m <= |suffix| && TrimEnd(suffix) == suffix[..m];
    var whole := prefix + (core + suffix);
    SliceHasNoPair(whole, k, |prefix| + |core| + m);
    SliceOfConcat(prefix, core, suffix, k, m);
  }

  lemma SliceOfConcat(a: string, b: string, c: string, k: nat, m: nat)
    requires k <= |a| && m <= |c|
    ensures (a + (b + c))[k..|a| + |b| + m] == a[k..] + (b + c[..m])
  {
  }

  lemma DropFront(a: string, b: string)
    ensures (a + b)[|a|..] == b && (a + b)[..|a|] == a
  {
  }

  lemma SliceHasNoPair(s: string, lo: nat, hi: nat)
    requires lo <= hi <= |s| && NoFencePair(s)
    ensures NoFencePair(s[lo..hi])
  {
    forall i: nat, j: nat | FenceAt(s[lo..hi], i) && FenceAt(s[lo..hi], j) ensures j < i + 3 {
      assert FenceAt(s, lo + i) && FenceAt(s, lo + j);
    }
  }

  lemma SliceHasNoFence(s: string, lo: nat, hi: nat)
    requires lo <= hi <= |s| && NoFence(s)
    ensures NoFence(s[lo..hi])
  {
    forall i: nat ensures !FenceAt(s[lo..hi], i) {
      assert !FenceAt(s, lo + i);
    }
  }

  lemma {:induction false} FirstBraceAfter(before: string, rest: string)
    requires '{' !in before && rest != "" && rest[0] == '{'
    ensures FirstBrace(before + rest) == Some(|before|)
  {
    if before == "" {
      assert before + rest == rest;
    } else {
      FirstBraceAfter(before[1..], rest);
      assert (before + rest)[1..] == before[1..] + rest;
    }
  }

  // Extraction from a candidate that holds the printed object after brace-free text.
  lemma ExtractAt(text: string, before: string, members: Members, gap: string, after: string)
    requires JsonSpace(gap) && NumericMembers(members) && '{' !in before
    requires Candidate(text) == before + (Print(JObject(members), gap) + after)
    ensures Extract(text) == Object(Print(JObject(members), gap))
  {
    var printed, candidate := Print(JObject(members), gap), Candidate(text);
    var inner := ObjectItems(members, gap);
    ScanBlock(inner, after);
    FirstBraceAfter(before, printed + after);
    assert candidate[|before|..] == printed + after;
    assert (printed + after)[..|printed|] == printed;
  }

  /**
   * Round trip in prose: an object printed after brace-free text, with no fence that is closed
   * anywhere, is extracted exactly, whatever its strings and the text after it hold.
   */
  lemma RoundTripInProse(prefix: string, members: Members, gap: string, suffix: string)
    requires JsonSpace(gap) && NumericMembers(members) && '{' !in prefix
    requires NoFencePair(prefix + (Print(JObject(members), gap) + suffix))
    ensures Extract(prefix + (Print(JObject(members), gap) + suffix)) == Object(Print(JObject(members), gap))
  {
    var printed := Print(JObject(members), gap);
    assert printed[0] == '{' && printed[|printed| - 1] == '}';
    TrimAround(prefix, printed, suffix);
    NoPairInside(prefix, printed, suffix);
    TrimStartBefore(prefix, printed);
    var open, close := CandidateStandsInTheFirstBlock(prefix + (printed + suffix));
    ExtractAt(prefix + (printed + suffix), TrimStart(prefix), members, gap, TrimEnd(suffix));
  }

  // A fence is found where it stands when nothing before it, from the search start, reads as one.
  lemma FenceFound(s: string, from: nat, before: string, after: string)
    requires from + |before| + 3 <= |s| && s[from..] == before + ("```" + after)
    requires NoFence(before) && (before != "" ==> before[|before| - 1] != '`')
    ensures FindFence(s, from) == Some(from + |before|)
  {
    var at := from + |before|;
    assert forall d | 0 <= d < |before| + 3 :: s[from + d] == s[from..][d];
    assert FenceAt(s, at);
    forall k | from <= k < at ensures !FenceAt(s, k) {
      if k + 3 <= at { assert !FenceAt(before, k - from); }
      assert s[at - 1] == before[|before| - 1];
    }
  }

  lemma {:induction false} AllSpaceTrims(s: string)
    requires JsonSpace(s)
    ensures TrimStart(s) == "" && TrimEnd(s) == ""
    decreases |s|
  {
    if s != "" {
      AllSpaceTrims(s[1..]);
      AllSpaceTrims(s[..|s| - 1]);
    }
  }

  // What stands between two fences: a tag, space, the printed object, space.
  function Fenced(tag: string, lead: string, printed: string, trail: string): string {
    tag + (lead + (printed + trail))
  }

  lemma InsideFence(tag: string, lead: string, printed: string, trail: string)
    requires (tag == "" || IsTag(tag)) && JsonSpace(lead) && JsonSpace(trail)
    requires printed != "" && printed[0] == '{' && printed[|printed| - 1] == '}'
    ensures Trim(SkipTag(Fenced(tag, lead, printed, trail))) == printed
  {
    var body, inner := Fenced(tag, lead, printed, trail), lead + (printed + trail);
    if tag == "" {
      assert body == inner;
      assert inner[0] == '{' || inner[0] in lead by { assert inner[0] == if lead == "" then '{' else lead[0]; }
      assert SkipTag(inner) == inner;
    } else {
      assert body[4..] == inner && body[..4] == tag;
      TagIsSkipped(body);
    }
    TrimAround(lead, printed, trail);
    AllSpaceTrims(lead);
    AllSpaceTrims(trail);
  }

  lemma BodyHasNoFence(tag: string, lead: string, printed: string, trail: string)
    requires (tag == "" || IsTag(tag)) && JsonSpace(lead) && JsonSpace(trail) && NoFence(printed)
    ensures NoFence(Fenced(tag, lead, printed, trail))
  {
    var body, off := Fenced(tag, lead, printed, trail), |tag| + |lead|;
    forall j | 0 <= j < |body|
      ensures body[j] == '`' ==> off <= j < off + |printed|
      ensures off <= j < off + |printed| ==> body[j] == printed[j - off]
    {
      if j < |tag| {
        assert body[j] == tag[j];
      } else if j < off {
        assert body[j] in lead by { assert lead[j - |tag|] == body[j]; }
      } else if j >= off + |printed| {
        assert body[j] in trail by { assert trail[j - off - |printed|] == body[j]; }
      }
    }
    forall i: nat ensures !FenceAt(body, i) {
      if off <= i { assert !FenceAt(printed, i - off); }
    }
  }

  // A fence block within text: `before`, the opening fence, `body`, the closing fence, `after`.
  function Blocked(before: string, body: string, after: string): string {
    before + (("```" + (body + "```")) + after)
  }

  lemma OpeningFence(before: string, body: string, after: string)
    requires NoFence(before) && (before != "" ==> before[|before| - 1] != '`')
    ensures FindFence(Blocked(before, body, after), 0) == Some(|before|)
  {
    var s := Blocked(before, body, after);
    Reassociate("```", body + "```", after);
    assert s[0..] == s;
    FenceFound(s, 0, before, (body + "```") + after);
  }

  lemma BlockedParts(before: string, body: string, after: string)
    ensures Blocked(before, body, after) == (before + "```") + (body + ("```" + after))
  {
    Reassociate("```", body + "```", after);
    Reassociate(body, "```", after);
    Reassociate(before, "```", body + ("```" + after));
  }

  lemma MiddleSlice(a: string, b: string, c: string)
    ensures (a + (b + c))[|a|..|a| + |b|] == b
  {
  }

  lemma ClosingFence(front: string, body: string, after: string)
    requires NoFence(body) && body != "" && body[|body| - 1] != '`'
    ensures FindFence(front + (body + ("```" + after)), |front|) == Some(|front| + |body|)
  {
    DropFront(front, body + ("```" + after));
    FenceFound(front + (body + ("```" + after)), |front|, body, after);
  }

  lemma TrimStartKeeps(s: string)
    requires NoFence(s) && (s != "" ==> s[|s| - 1] != '`')
    ensures NoFence(TrimStart(s)) && (TrimStart(s) != "" ==> TrimStart(s)[|TrimStart(s)| - 1] != '`')
  {
    TrimStartBefore(s, "{");
    var k :| 0 <= k <= |s| && TrimStart(s) == s[k..];
    assert s[k..] == s[k..|s|];
    SliceHasNoFence(s, k, |s|);
  }

  lemma FencesOfBlock(before: string, body: string, after: string)
    requires NoFence(before) && (before != "" ==> before[|before| - 1] != '`')
    requires NoFence(body) && body != "" && body[|body| - 1] != '`'
    ensures var t, close := Blocked(before, body, after), |before| + 3 + |body|;
            && FindFence(t, 0) == Some(|before|) && FindFence(t, |before| + 3) == Some(close)
            && close <= |t| && t[|before| + 3..close] == body
  {
    OpeningFence(before, body, after);
    BlockedParts(before, body, after);
    ClosingFence(before + "```", body, after);
    MiddleSlice(before + "```", body, "```" + after);
  }

  lemma FencedCandidate(prefix: string, body: string, suffix: string)
    requires NoFence(prefix) && (prefix != "" ==> prefix[|prefix| - 1] != '`')
    requires NoFence(body) && body != "" && body[|body| - 1] != '`'
    ensures Candidate(Blocked(prefix, body, suffix)) == Trim(SkipTag(body))
  {
    var before, after := TrimStart(prefix), TrimEnd(suffix);
    TrimmedBlock(prefix, body, suffix);
    TrimStartKeeps(prefix);
    FencesOfBlock(before, body, after);
    CandidateInFence(Blocked(prefix, body, suffix), Blocked(before, body, after), |before|, |before| + 3 + |body|, body);
  }

  lemma TrimmedBlock(prefix: string, body: string, suffix: string)
    ensures Trim(Blocked(prefix, body, suffix)) == Blocked(TrimStart(prefix), body, TrimEnd(suffix))
  {
    FenceEnds(body);
    TrimAround(prefix, "```" + (body + "```"), suffix);
  }

  lemma CandidateInFence(text: string, t: string, open: nat, close: nat, body: string)
    requires Trim(text) == t && FindFence(t, 0) == Some(open) && FindFence(t, open + 3) == Some(close)
    requires open + 3 <= close <= |t| && t[open + 3..close] == body
    ensures Candidate(text) == Trim(SkipTag(body))
  {
  }

  lemma FenceEnds(body: string)
    ensures var core := "```" + (body + "```"); |core| >= 6 && core[0] == '`' && core[|core| - 1] == '`'
  {
  }

  lemma BodyShape(tag: string, lead: string, printed: string, trail: string)
    requires (tag == "" || IsTag(tag)) && JsonSpace(lead) && JsonSpace(trail) && NoFence(printed)
    requires printed != "" && printed[|printed| - 1] == '}'
    ensures var body := Fenced(tag, lead, printed, trail); NoFence(body) && body != "" && body[|body| - 1] != '`'
  {
    var body := Fenced(tag, lead, printed, trail);
    BodyHasNoFence(tag, lead, printed, trail);
    assert body[|body| - 1] == if trail == "" then '}' else trail[|trail| - 1];
    assert trail != "" ==> trail[|trail| - 1] in trail;
  }

  /**
   * Round trip in a fence: with or without the tag, in any case, an object printed inside the first fence is
   * extracted exactly, even when the prose around the fence has braces of its own.
   */
  lemma RoundTripInFence(prefix: string, tag: string, lead: string, members: Members,
                         gap: string, trail: string, suffix: string)
    requires JsonSpace(gap) && JsonSpace(lead) && JsonSpace(trail) && NumericMembers(members)
    requires tag == "" || IsTag(tag)
    requires NoFence(prefix) && (prefix != "" ==> prefix[|prefix| - 1] != '`')
    requires NoFence(Print(JObject(members), gap))
    ensures var body := Fenced(tag, lead, Print(JObject(members), gap), trail);
            Extract(Blocked(prefix, body, suffix)) == Object(Print(JObject(members), gap))
  {
    var printed := Print(JObject(members), gap);
    var body := Fenced(tag, lead, printed, trail);
    assert printed[0] == '{' && printed[|printed| - 1] == '}';
    BodyShape(tag, lead, printed, trail);
    FencedCandidate(prefix, body, suffix);
    InsideFence(tag, lead, printed, trail);
    assert printed == "" + (printed + "");
    ExtractAt(Blocked(prefix, body, suffix), "", members, gap, "");
  }
}
