/**
 * UTF-8 decoding as a Node buffer does it: well-formed byte sequences as in section 4 of RFC 3629, and one
 * U+FFFD for every maximal ill-formed part (section 3.9 of the Unicode Standard). A decoder that is handed
 * the bytes in pieces, each piece on its own, gives the text of the whole iff no piece ends inside a character.
 */
module Utf8 {
  type Byte = x: int | 0 <= x < 256

  const REPLACEMENT := '\U{FFFD}'

  // `Need`: so many more bytes, the next one between `lo` and `hi`; `acc` holds the bits read so far.
  datatype State = Start | Need(more: int, lo: int, hi: int, acc: int) {
    predicate Valid() {
      Need? ==>
        && 1 <= more <= 3 && 0x80 <= lo <= hi <= 0xBF && acc >= 0
        && (Largest() < 0xD800 || (0xE000 <= Smallest() && Largest() <= 0x10FFFF))
    }

    // The range of the characters that can still come out of this state.
    function Smallest(): int
      requires Need?
    {
      (64 * acc + lo - 0x80) * (if more <= 1 then 1 else if more == 2 then 64 else 4096)
    }

    function Largest(): int
      requires Need?
    {
      (64 * acc + hi - 0x80 + 1) * (if more <= 1 then 1 else if more == 2 then 64 else 4096) - 1
    }

    predicate Takes(b: Byte) {
      Need? && lo <= b <= hi
    }
  }

  function Lead(b: Byte): (r: (string, State))
    ensures r.1.Valid()
  {
    if b < 0x80 then ([b as char], Start)
    else if 0xC2 <= b <= 0xDF then ("", Need(1, 0x80, 0xBF, b - 0xC0))
    else if 0xE0 <= b <= 0xEF then ("", Need(2, if b == 0xE0 then 0xA0 else 0x80, if b == 0xED then 0x9F else 0xBF, b - 0xE0))
    else if 0xF0 <= b <= 0xF4 then ("", Need(3, if b == 0xF0 then 0x90 else 0x80, if b == 0xF4 then 0x8F else 0xBF, b - 0xF0))
    else ([REPLACEMENT], Start)
  }

  // One byte; one that cannot continue the character begun before it is read afresh.
  function Step(st: State, b: Byte): (r: (string, State))
    requires st.Valid()
    ensures r.1.Valid()
  {
    if !st.Takes(b) then (Flush(st) + Lead(b).0, Lead(b).1)
    else if st.more == 1 then ([(64 * st.acc + b - 0x80) as char], Start)
    else ("", Need(st.more - 1, 0x80, 0xBF, 64 * st.acc + b - 0x80))
  }

  function Flush(st: State): string {
    if st == Start then "" else [REPLACEMENT]
  }

  function Rest(st: State, bytes: seq<Byte>): string
    requires st.Valid()
    decreases bytes
  {
    if bytes == [] then Flush(st) else Step(st, bytes[0]).0 + Rest(Step(st, bytes[0]).1, bytes[1..])
  }

  function Decode(bytes: seq<Byte>): string {
    Rest(Start, bytes)
  }

  // ---- The encoder, and whole characters ----

  function EncodeChar(c: char): seq<Byte> {
    var n := c as int;
    if n < 0x80 then [n]
    else if n < 0x800 then [0xC0 + n / 64, 0x80 + n % 64]
    else if n < 0x10000 then [0xE0 + n / 4096, 0x80 + n / 64 % 64, 0x80 + n % 64]
    else [0xF0 + n / 262144, 0x80 + n / 4096 % 64, 0x80 + n / 64 % 64, 0x80 + n % 64]
  }

  function Encode(text: string): seq<Byte> {
    if text == "" then [] else EncodeChar(text[0]) + Encode(text[1..])
  }

  lemma LeadByte(b: Byte, rest: seq<Byte>)
    ensures Rest(Start, [b] + rest) == Lead(b).0 + Rest(Lead(b).1, rest)
  {
    assert ([b] + rest)[1..] == rest;
  }

  lemma MiddleByte(st: State, b: Byte, rest: seq<Byte>, next: State)
    requires st.Valid() && st.Takes(b) && st.more > 1 && next == Need(st.more - 1, 0x80, 0xBF, 64 * st.acc + b - 0x80)
    ensures next.Valid() && Rest(st, [b] + rest) == Rest(next, rest)
  {
    assert ([b] + rest)[1..] == rest;
  }

  lemma LastByte(st: State, b: Byte, rest: seq<Byte>, c: char)
    requires st.Valid() && st.Takes(b) && st.more == 1 && c as int == 64 * st.acc + b - 0x80
    ensures Rest(st, [b] + rest) == [c] + Rest(Start, rest)
  {
    assert ([b] + rest)[1..] == rest;
  }

  lemma Digits(n: nat)
    ensures n == 64 * (n / 64) + n % 64 && n / 64 == 64 * (n / 4096) + n / 64 % 64
    ensures n / 4096 == 64 * (n / 262144) + n / 4096 % 64
  {
  }

  lemma OfTwo(c: char, rest: seq<Byte>)
    requires 0x80 <= c as int < 0x800
    ensures Rest(Start, EncodeChar(c) + rest) == [c] + Rest(Start, rest)
  {
    var e := EncodeChar(c);
    assert e + rest == [e[0]] + ([e[1]] + rest);
    LeadByte(e[0], [e[1]] + rest);
    LastByte(Lead(e[0]).1, e[1], rest, c);
  }

  lemma OfThree(c: char, rest: seq<Byte>)
    requires 0x800 <= c as int < 0x10000
    ensures Rest(Start, EncodeChar(c) + rest) == [c] + Rest(Start, rest)
  {
    var e, n := EncodeChar(c), c as int;
    Digits(n);
    var second := Need(1, 0x80, 0xBF, n / 64);
    assert e + rest == [e[0]] + ([e[1]] + ([e[2]] + rest));
    LeadByte(e[0], [e[1]] + ([e[2]] + rest));
    MiddleByte(Lead(e[0]).1, e[1], [e[2]] + rest, second);
    LastByte(second, e[2], rest, c);
  }

  lemma LastTwo(c: char, st: State, b: Byte, d: Byte, rest: seq<Byte>)
    requires 0x10000 <= c as int && st == Need(2, 0x80, 0xBF, c as int / 4096) && st.Valid()
    requires b == 0x80 + c as int / 64 % 64 && d == 0x80 + c as int % 64
    ensures Rest(st, [b] + ([d] + rest)) == [c] + Rest(Start, rest)
  {
    Digits(c as int);
    var last := Need(1, 0x80, 0xBF, c as int / 64);
    MiddleByte(st, b, [d] + rest, last);
    LastByte(last, d, rest, c);
  }

  lemma OfFour(c: char, rest: seq<Byte>)
    requires 0x10000 <= c as int
    ensures Rest(Start, EncodeChar(c) + rest) == [c] + Rest(Start, rest)
  {
    var e, n := EncodeChar(c), c as int;
    Digits(n);
    var second, tail := Need(2, 0x80, 0xBF, n / 4096), [e[2]] + ([e[3]] + rest);
    assert e + rest == [e[0]] + ([e[1]] + tail);
    LeadByte(e[0], [e[1]] + tail);
    MiddleByte(Lead(e[0]).1, e[1], tail, second);
    LastTwo(c, second, e[2], e[3], rest);
  }

  lemma DecodeChar(c: char, rest: seq<Byte>)
    ensures Decode(EncodeChar(c) + rest) == [c] + Decode(rest)
  {
    if c as int < 0x80 {
      LeadByte(c as int, rest);
    } else if c as int < 0x800 {
      OfTwo(c, rest);
    } else if c as int < 0x10000 {
      OfThree(c, rest);
    } else {
      OfFour(c, rest);
    }
  }

  lemma {:induction false} DecodePrefix(text: string, rest: seq<Byte>)
    ensures Decode(Encode(text) + rest) == text + Decode(rest)
  {
    if text == "" {
      assert Encode(text) + rest == rest;
    } else {
      assert Encode(text) + rest == EncodeChar(text[0]) + (Encode(text[1..]) + rest);
      DecodeChar(text[0], Encode(text[1..]) + rest);
      DecodePrefix(text[1..], rest);
      assert [text[0]] + (text[1..] + Decode(rest)) == text + Decode(rest);
    }
  }

  /** Every text survives encoding and decoding. */
  lemma DecodeEncoded(text: string)
    ensures Decode(Encode(text)) == text
  {
    DecodePrefix(text, []);
    assert Encode(text) + [] == Encode(text) && text + Decode([]) == text;
  }

  // ---- Decoding in two pieces ----

  function StateAfter(st: State, bytes: seq<Byte>): (r: State)
    requires st.Valid()
    ensures r.Valid()
    decreases bytes
  {
    if bytes == [] then st else StateAfter(Step(st, bytes[0]).1, bytes[1..])
  }

  // The second piece does not go on with a character that the first one leaves unfinished.
  predicate CleanCut(a: seq<Byte>, b: seq<Byte>) {
    b == [] || !StateAfter(Start, a).Takes(b[0])
  }

  function Emitted(st: State, bytes: seq<Byte>): string
    requires st.Valid()
    decreases bytes
  {
    if bytes == [] then "" else Step(st, bytes[0]).0 + Emitted(Step(st, bytes[0]).1, bytes[1..])
  }

  lemma {:induction false} RestOfSum(st: State, a: seq<Byte>, b: seq<Byte>)
    requires st.Valid()
    ensures Rest(st, a + b) == Emitted(st, a) + Rest(StateAfter(st, a), b)
    decreases a
  {
    if a == [] {
      assert a + b == b;
    } else {
      assert (a + b)[1..] == a[1..] + b;
      RestOfSum(Step(st, a[0]).1, a[1..], b);
    }
  }

  // Starting inside a character costs at most one replacement character.
  lemma {:induction false} LateStart(st: State, bytes: seq<Byte>)
    requires st.Valid()
    ensures |Rest(st, bytes)| <= 1 + |Rest(Start, bytes)|
    decreases bytes
  {
    if bytes != [] && st.Takes(bytes[0]) { LateStart(Step(st, bytes[0]).1, bytes[1..]); }
  }

  lemma FreshStart(st: State, bytes: seq<Byte>)
    requires st.Valid() && (bytes == [] || !st.Takes(bytes[0]))
    ensures Rest(st, bytes) == Flush(st) + Rest(Start, bytes)
  {
  }

  lemma UnfinishedStart(st: State, bytes: seq<Byte>)
    requires st.Valid() && bytes != [] && st.Takes(bytes[0])
    ensures |Rest(st, bytes)| < |Flush(st)| + |Rest(Start, bytes)|
  {
    LateStart(Step(st, bytes[0]).1, bytes[1..]);
    assert Lead(bytes[0]) == ([REPLACEMENT], Start);
  }

  lemma RestIff(st: State, bytes: seq<Byte>)
    requires st.Valid()
    ensures var apart := Flush(st) + Rest(Start, bytes);
            && (bytes == [] || !st.Takes(bytes[0]) ==> Rest(st, bytes) == apart)
            && (!(bytes == [] || !st.Takes(bytes[0])) ==> |Rest(st, bytes)| < |apart|)
  {
    if bytes == [] || !st.Takes(bytes[0]) { FreshStart(st, bytes); } else { UnfinishedStart(st, bytes); }
  }

  // A text that is `whole` if `clean`, and shorter than `each` otherwise.
  predicate Splits(each: string, whole: string, clean: bool) {
    if clean then each == whole else |whole| < |each|
  }

  lemma SplitsAfter(emitted: string, flush: string, rest: string, mid: string, first: string, both: string, clean: bool)
    requires Splits(flush + rest, mid, clean) && first == emitted + flush && both == emitted + mid
    ensures Splits(first + rest, both, clean)
  {
    assert first + rest == emitted + (flush + rest);
  }

  lemma DecodedPrefix(bytes: seq<Byte>)
    ensures Decode(bytes) == Emitted(Start, bytes) + Flush(StateAfter(Start, bytes))
  {
    RestOfSum(Start, bytes, []);
    assert bytes + [] == bytes;
  }

  /** Two pieces decoded on their own give the text of both together if the cut is clean, and a longer one if it is not. */
  lemma CutDecodesIff(a: seq<Byte>, b: seq<Byte>)
    ensures Splits(Decode(a) + Decode(b), Decode(a + b), CleanCut(a, b))
  {
    var st := StateAfter(Start, a);
    RestOfSum(Start, a, b);
    DecodedPrefix(a);
    RestIff(st, b);
    SplitsAfter(Emitted(Start, a), Flush(st), Decode(b), Rest(st, b), Decode(a), Decode(a + b), CleanCut(a, b));
  }

  // ---- Decoding in many pieces ----

  function Join(chunks: seq<seq<Byte>>): seq<Byte> {
    if chunks == [] then [] else Join(chunks[..|chunks| - 1]) + chunks[|chunks| - 1]
  }

  function DecodeEach(chunks: seq<seq<Byte>>): string {
    if chunks == [] then "" else DecodeEach(chunks[..|chunks| - 1]) + Decode(chunks[|chunks| - 1])
  }

  predicate CleanAt(chunks: seq<seq<Byte>>, k: nat)
    requires k < |chunks|
  {
    CleanCut(Join(chunks[..k]), chunks[k])
  }

  predicate CleanCuts(chunks: seq<seq<Byte>>) {
    forall k | 0 <= k < |chunks| :: CleanAt(chunks, k)
  }

  lemma SplitsAgain(each: string, whole: string, clean: bool, last: string, all: string, cut: bool)
    requires Splits(each, whole, clean) && Splits(whole + last, all, cut)
    ensures Splits(each + last, all, clean && cut)
  {
  }

  lemma CleanAtPrefix(chunks: seq<seq<Byte>>, n: nat, k: nat)
    requires k < n <= |chunks|
    ensures CleanAt(chunks[..n], k) <==> CleanAt(chunks, k)
  {
    assert chunks[..n][..k] == chunks[..k];
  }

  lemma CleanCutsOneMore(chunks: seq<seq<Byte>>, n: nat)
    requires n + 1 == |chunks|
    ensures CleanCuts(chunks) <==> CleanCuts(chunks[..n]) && CleanAt(chunks, n)
  {
    forall k | 0 <= k < n ensures CleanAt(chunks[..n], k) <==> CleanAt(chunks, k) {
      CleanAtPrefix(chunks, n, k);
    }
  }

  /** Pieces decoded one by one give the text of all their bytes if every cut is clean, and a longer one if not. */
  lemma {:induction false} PiecesDecodeIff(chunks: seq<seq<Byte>>)
    ensures Splits(DecodeEach(chunks), Decode(Join(chunks)), CleanCuts(chunks))
  {
    if chunks != [] {
      var n := |chunks| - 1;
      var before, last := chunks[..n], chunks[n];
      PiecesDecodeIff(before);
      CutDecodesIff(Join(before), last);
      CleanCutsOneMore(chunks, n);
      SplitsAgain(DecodeEach(before), Decode(Join(before)), CleanCuts(before), Decode(last), Decode(Join(chunks)), CleanCut(Join(before), last));
    }
  }

  function Concat(texts: seq<string>): string {
    if texts == [] then "" else Concat(texts[..|texts| - 1]) + texts[|texts| - 1]
  }

  lemma {:induction false} EncodeSum(a: string, b: string)
    ensures Encode(a + b) == Encode(a) + Encode(b)
  {
    if a == "" {
      assert a + b == b;
    } else {
      assert (a + b)[1..] == a[1..] + b;
      EncodeSum(a[1..], b);
    }
  }

  ghost predicate HoldTexts(chunks: seq<seq<Byte>>, texts: seq<string>) {
    |chunks| == |texts| && forall i | 0 <= i < |texts| :: chunks[i] == Encode(texts[i])
  }

  lemma {:induction false} JoinOfTexts(chunks: seq<seq<Byte>>, texts: seq<string>)
    requires HoldTexts(chunks, texts)
    ensures Join(chunks) == Encode(Concat(texts))
  {
    if texts != [] {
      var n := |texts| - 1;
      JoinOfTexts(chunks[..n], texts[..n]);
      EncodeSum(Concat(texts[..n]), texts[n]);
    }
  }

  lemma {:induction false} TextsDecoded(chunks: seq<seq<Byte>>, texts: seq<string>)
    requires HoldTexts(chunks, texts)
    ensures DecodeEach(chunks) == Concat(texts)
  {
    if texts != [] {
      var n := |texts| - 1;
      TextsDecoded(chunks[..n], texts[..n]);
      assert Decode(chunks[n]) == texts[n] by { DecodeEncoded(texts[n]); }
    }
  }

  /** Chunks that hold whole characters have clean cuts, and decode one by one to the text they encode. */
  lemma WholeCharactersSurvive(chunks: seq<seq<Byte>>, texts: seq<string>)
    requires HoldTexts(chunks, texts)
    ensures CleanCuts(chunks) && DecodeEach(chunks) == Concat(texts)
  {
    JoinOfTexts(chunks, texts);
    TextsDecoded(chunks, texts);
    DecodeEncoded(Concat(texts));
    PiecesDecodeIff(chunks);
  }
}
