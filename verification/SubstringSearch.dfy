/** Substring search for short queries: an index of one- and two-character tokens, spelled as
    hexadecimal UTF-8 (section 3 of RFC 3629), against a literal LIKE pattern. */
module SubstringSearch {
  import opened Outcomes

  /** Unicode scalar values; text is well formed. */
  type Scalar = c: int | 0 <= c < 0x110000 && !(0xD800 <= c < 0xE000) witness 0
  type Byte = b: int | 0 <= b < 256
  type Text = seq<Scalar>

  // ---------- Encoding ----------

  function Utf8(c: Scalar): (r: seq<Byte>)
    ensures 1 <= |r| <= 4 && |r| == LengthFromLead(r[0])
  {
    if c < 0x80 then [c]
    else if c < 0x800 then [0xC0 + c / 64, 0x80 + c % 64]
    else if c < 0x10000 then [0xE0 + c / 4096, 0x80 + c / 64 % 64, 0x80 + c % 64]
    else [0xF0 + c / 262144, 0x80 + c / 4096 % 64, 0x80 + c / 64 % 64, 0x80 + c % 64]
  }

  /** The first byte of a character tells its length. */
  function LengthFromLead(lead: Byte): nat {
    if lead < 0xC0 then 1 else if lead < 0xE0 then 2 else if lead < 0xF0 then 3 else 4
  }

  function Encode(text: Text): seq<Byte> {
    if text == [] then [] else Utf8(text[0]) + Encode(text[1..])
  }

  function HexDigit(n: int): char
    requires 0 <= n < 16
  {
    "0123456789abcdef"[n]
  }

  function Hex(bytes: seq<Byte>): string {
    if bytes == [] then "" else [HexDigit(bytes[0] / 16), HexDigit(bytes[0] % 16)] + Hex(bytes[1..])
  }

  function Token(text: Text): string {
    "x" + Hex(Encode(text))
  }

  lemma DigitsDiffer(m: int, n: int)
    requires 0 <= m < 16 && 0 <= n < 16 && HexDigit(m) == HexDigit(n)
    ensures m == n
  {
  }

  lemma SameByte(a: Byte, b: Byte)
    requires HexDigit(a / 16) == HexDigit(b / 16) && HexDigit(a % 16) == HexDigit(b % 16)
    ensures a == b
  {
    DigitsDiffer(a / 16, b / 16);
    DigitsDiffer(a % 16, b % 16);
  }

  lemma {:induction false} HexIsInjective(a: seq<Byte>, b: seq<Byte>)
    requires Hex(a) == Hex(b)
    ensures a == b
  {
    if a == [] || b == [] {
      assert |a| == 0 || |Hex(a)| >= 2;
      assert |b| == 0 || |Hex(b)| >= 2;
    } else {
      var x, y := Hex(a), Hex(b);
      assert x[0] == y[0] && x[1] == y[1] && x[2..] == y[2..];
      assert x[2..] == Hex(a[1..]) && y[2..] == Hex(b[1..]);
      SameByte(a[0], b[0]);
      HexIsInjective(a[1..], b[1..]);
      assert a == [a[0]] + a[1..] && b == [b[0]] + b[1..];
    }
  }

  /** The value of an encoded character. */
  function Value(bytes: seq<Byte>): int
    requires bytes != [] && |bytes| >= LengthFromLead(bytes[0])
  {
    var b: int := bytes[0];
    if b < 0xC0 then b
    else if b < 0xE0 then (b - 0xC0) * 64 + Low(bytes[1])
    else if b < 0xF0 then (b - 0xE0) * 4096 + Low(bytes[1]) * 64 + Low(bytes[2])
    else (b - 0xF0) * 262144 + Low(bytes[1]) * 4096 + Low(bytes[2]) * 64 + Low(bytes[3])
  }

  function Low(continuation: int): int {
    continuation - 0x80
  }

  lemma Utf8ReadsBack(c: Scalar)
    ensures Value(Utf8(c)) == c
  {
    assert c == c / 64 * 64 + c % 64;
    assert c / 64 == c / 4096 * 64 + c / 64 % 64;
    assert c / 4096 == c / 262144 * 64 + c / 4096 % 64;
  }

  /** One byte below 0x80, two below 0x800, three in the basic plane, else four; the bytes
      after the first are all continuations. */
  lemma Utf8Lengths(c: Scalar)
    ensures |Utf8(c)| == if c < 0x80 then 1 else if c < 0x800 then 2 else if c < 0x1_0000 then 3 else 4
    ensures forall i :: 0 < i < |Utf8(c)| ==> 0x80 <= Utf8(c)[i] < 0xC0
  {
  }

  /** No character's encoding starts another's. */
  lemma Utf8IsPrefixFree(a: Scalar, b: Scalar, x: seq<Byte>, y: seq<Byte>)
    requires Utf8(a) + x == Utf8(b) + y
    ensures a == b && x == y
  {
    hide Utf8, Value;
    var left, right := Utf8(a) + x, Utf8(b) + y;
    assert left[0] == Utf8(a)[0] && right[0] == Utf8(b)[0];
    var n := |Utf8(a)|;
    assert Utf8(a) == left[..n] == right[..n] == Utf8(b);
    assert x == left[n..] && y == right[n..];
    Utf8ReadsBack(a);
    Utf8ReadsBack(b);
  }

  lemma {:induction false} EncodeIsInjective(a: Text, b: Text)
    requires Encode(a) == Encode(b)
    ensures a == b
  {
    hide Utf8;
    if a != [] && b != [] {
      Utf8IsPrefixFree(a[0], b[0], Encode(a[1..]), Encode(b[1..]));
      EncodeIsInjective(a[1..], b[1..]);
      assert a == [a[0]] + a[1..] && b == [b[0]] + b[1..];
    } else {
      assert |a| == 0 || |Encode(a)| >= 1;
      assert |b| == 0 || |Encode(b)| >= 1;
    }
  }

  lemma TokenIsInjective(a: Text, b: Text)
    requires Token(a) == Token(b)
    ensures a == b
  {
    assert Token(a)[1..] == Hex(Encode(a)) && Token(b)[1..] == Hex(Encode(b));
    HexIsInjective(Encode(a), Encode(b));
    EncodeIsInjective(a, b);
  }

  // ---------- The index ----------

  /** SQLite folds A to Z only. */
  function Fold(c: Scalar): Scalar {
    if 'A' as int <= c <= 'Z' as int then c + 32 else c
  }

  function FoldAll(text: Text): (r: Text)
    ensures |r| == |text| && forall i :: 0 <= i < |text| ==> r[i] == Fold(text[i])
  {
    if text == [] then [] else [Fold(text[0])] + FoldAll(text[1..])
  }

  predicate Lowered(text: Text) {
    forall c :: c in text ==> Fold(c) == c
  }

  /** Folding changes the capitals A to Z, 65 to 90, into a to z, and nothing else. */
  lemma FoldsCapitals(c: Scalar)
    ensures Fold(c) == if 65 <= c <= 90 then c + 32 else c
    ensures Fold(Fold(c)) == Fold(c)
  {
  }

  /** Tokens are spelled in lower-case hexadecimal, two digits a byte. */
  lemma TokensAreSpelled()
    ensures Token([0x61]) == "x61" && Token([0xE9]) == "xc3a9"
  {
    assert Encode([0x61]) == [0x61] && Encode([0xE9]) == [0xC3, 0xA9];
  }

  /** Every character, and every character with the one after it. */
  function TokensUpTo(text: Text, n: nat): set<string>
    requires n <= |text|
  {
    if n == 0 then {}
    else
      TokensUpTo(text, n - 1) + {Token([text[n - 1]])} + (if n < |text| then {Token([text[n - 1], text[n]])} else {})
  }

  function Tokens(text: Text): set<string> {
    TokensUpTo(text, |text|)
  }

  /** shortSubstringTokens: the loop over the characters. */
  method ShortTokens(text: Text) returns (tokens: set<string>)
    ensures tokens == Tokens(FoldAll(text))
  {
    var characters := FoldAll(text);
    tokens := {};
    var index := 0;
    while index < |characters|
      invariant index <= |characters| && tokens == TokensUpTo(characters, index)
    {
      hide Token;
      tokens := tokens + {Token([characters[index]])};
      if index + 1 < |characters| {
        tokens := tokens + {Token([characters[index], characters[index + 1]])};
      }
      index := index + 1;
    }
  }

  predicate OccursAt(text: Text, query: Text, k: int) {
    0 <= k <= |text| - |query| && text[k..k + |query|] == query
  }

  ghost predicate Contains(text: Text, query: Text) {
    exists k :: OccursAt(text, query, k)
  }

  /** The two tokens of a position are those of the short texts that occur there. */
  predicate TokenAt(text: Text, query: Text, k: nat)
    requires k < |text|
  {
    Token(query) == Token([text[k]]) || (k + 1 < |text| && Token(query) == Token([text[k], text[k + 1]]))
  }

  lemma TokenAtMeansOccurrence(text: Text, query: Text, k: nat)
    requires k < |text| && 1 <= |query| <= 2
    ensures TokenAt(text, query, k) <==> OccursAt(text, query, k)
  {
    hide Token;
    if TokenAt(text, query, k) {
      if Token(query) == Token([text[k]]) {
        TokenIsInjective(query, [text[k]]);
      } else {
        TokenIsInjective(query, [text[k], text[k + 1]]);
      }
    }
    assert text[k..k + 1] == [text[k]] && (k + 1 < |text| ==> text[k..k + 2] == [text[k], text[k + 1]]);
  }

  ghost predicate OccursBefore(text: Text, query: Text, n: nat) {
    exists k :: k < n && OccursAt(text, query, k)
  }

  lemma {:induction false} TokenMeansOccurrence(text: Text, n: nat, query: Text)
    requires n <= |text| && 1 <= |query| <= 2
    ensures Token(query) in TokensUpTo(text, n) <==> OccursBefore(text, query, n)
  {
    hide Token, OccursAt;
    if n == 0 {
      NoneBeforeTheStart(text, query);
    } else {
      TokenMeansOccurrence(text, n - 1, query);
      TokenAtMeansOccurrence(text, query, n - 1);
      OccursOneFurther(text, query, n);
      hide OccursBefore;
    }
  }

  lemma NoneBeforeTheStart(text: Text, query: Text)
    ensures !OccursBefore(text, query, 0)
  {
  }

  lemma OccursOneFurther(text: Text, query: Text, n: nat)
    requires n > 0
    ensures OccursBefore(text, query, n) <==> OccursBefore(text, query, n - 1) || OccursAt(text, query, n - 1)
  {
    hide OccursAt;
  }

  /** The index finds a short query exactly in the texts that contain it. */
  lemma TokenFindsContained(text: Text, query: Text)
    requires 1 <= |query| <= 2
    ensures Token(query) in Tokens(text) <==> Contains(text, query)
  {
    TokenMeansOccurrence(text, |text|, query);
    assert forall k :: OccursAt(text, query, k) ==> k < |text|;
  }

  // ---------- The LIKE pattern ----------

  const PERCENT: Scalar := '%' as int
  const UNDERSCORE: Scalar := '_' as int
  const BACKSLASH: Scalar := '\\' as int

  function EscapeOne(c: Scalar): Text {
    if c == PERCENT || c == UNDERSCORE || c == BACKSLASH then [BACKSLASH, c] else [c]
  }

  function Escape(query: Text): Text {
    if query == [] then [] else EscapeOne(query[0]) + Escape(query[1..])
  }

  function LikePattern(query: Text): Text {
    [PERCENT] + Escape(query) + [PERCENT]
  }

  /** LIKE with backslash as its escape character, comparing characters folded. */
  predicate Like(pattern: Text, text: Text)
    decreases |pattern| + |text|
  {
    if pattern == [] then text == []
    else if pattern[0] == PERCENT then Like(pattern[1..], text) || (text != [] && Like(pattern, text[1..]))
    else if pattern[0] == BACKSLASH && |pattern| > 1 then
      text != [] && Fold(text[0]) == Fold(pattern[1]) && Like(pattern[2..], text[1..])
    else
      text != [] && (pattern[0] == UNDERSCORE || Fold(text[0]) == Fold(pattern[0])) && Like(pattern[1..], text[1..])
  }

  lemma {:induction false} EscapedIsLiteral(query: Text, rest: Text, text: Text)
    requires Lowered(query) && Lowered(text)
    ensures Like(Escape(query) + rest, text) <==> query <= text && Like(rest, text[|query|..])
    decreases |query|
  {
    if query == [] {
      assert Escape(query) + rest == rest && text[0..] == text;
    } else {
      var tail := Escape(query[1..]) + rest;
      assert Escape(query) + rest == EscapeOne(query[0]) + tail;
      assert query[0] in query && query == [query[0]] + query[1..];
      EscapeOneIsLiteral(query[0], tail, text);
      if text != [] && text[0] == query[0] {
        EscapedIsLiteral(query[1..], rest, text[1..]);
        PrefixFromSecond(query, text);
        hide Like, EscapeOne;
      }
    }
  }

  lemma PrefixFromSecond(query: Text, text: Text)
    requires query != [] && text != [] && text[0] == query[0]
    ensures query <= text <==> query[1..] <= text[1..]
    ensures |query| <= |text| ==> text[1..][|query| - 1..] == text[|query|..]
  {
    assert query == [query[0]] + query[1..] && text == [text[0]] + text[1..];
  }

  lemma EscapeOneIsLiteral(c: Scalar, tail: Text, text: Text)
    requires Fold(c) == c && Lowered(text)
    ensures Like(EscapeOne(c) + tail, text) <==> text != [] && text[0] == c && Like(tail, text[1..])
  {
    var pattern := EscapeOne(c) + tail;
    assert pattern[|EscapeOne(c)|..] == tail;
    assert text != [] ==> text[0] in text;
  }

  lemma {:induction false} PercentSkips(pattern: Text, text: Text)
    ensures Like([PERCENT] + pattern, text) <==> exists k :: 0 <= k <= |text| && Like(pattern, text[k..])
    decreases |text|
  {
    var whole := [PERCENT] + pattern;
    assert whole[1..] == pattern && text[0..] == text;
    if text != [] {
      PercentSkips(pattern, text[1..]);
      forall k | 0 <= k <= |text[1..]| ensures text[1..][k..] == text[k + 1..] {
      }
      if k :| 0 <= k <= |text[1..]| && Like(pattern, text[1..][k..]) {
        assert Like(pattern, text[k + 1..]);
      }
      if k :| 0 < k <= |text| && Like(pattern, text[k..]) {
        assert Like(pattern, text[1..][k - 1..]);
      }
    }
  }

  /** Matching does not look at the case of A to Z in the text. */
  lemma {:induction false} LikeFolds(pattern: Text, text: Text)
    ensures Like(pattern, text) <==> Like(pattern, FoldAll(text))
    decreases |pattern| + |text|
  {
    if text != [] {
      FoldsCapitals(text[0]);
      assert FoldAll(text)[1..] == FoldAll(text[1..]);
    }
    if pattern != [] {
      LikeFolds(pattern[1..], text);
      if text != [] {
        LikeFolds(pattern, text[1..]);
        LikeFolds(pattern[1..], text[1..]);
        if |pattern| > 1 {
          LikeFolds(pattern[2..], text[1..]);
        }
      }
    }
  }

  lemma FoldedIsLowered(text: Text)
    ensures Lowered(FoldAll(text))
  {
    forall i | 0 <= i < |text| ensures Fold(FoldAll(text)[i]) == FoldAll(text)[i] {
      FoldsCapitals(text[i]);
    }
  }

  /** The escaped pattern accepts exactly the texts that contain the query, in any case. */
  lemma LikeFindsContained(text: Text, query: Text)
    requires Lowered(query)
    ensures Like(LikePattern(query), text) <==> Contains(FoldAll(text), query)
  {
    LikeFolds(LikePattern(query), text);
    FoldedIsLowered(text);
    LikeFindsLowered(FoldAll(text), query);
  }

  lemma LikeFindsLowered(text: Text, query: Text)
    requires Lowered(text) && Lowered(query)
    ensures Like(LikePattern(query), text) <==> Contains(text, query)
  {
    var inner := Escape(query) + [PERCENT];
    assert LikePattern(query) == [PERCENT] + inner;
    PercentSkips(inner, text);
    forall k | 0 <= k <= |text| ensures Like(inner, text[k..]) <==> OccursAt(text, query, k) {
      InnerMatchesAt(text, query, k);
    }
    hide Like, OccursAt;
  }

  lemma InnerMatchesAt(text: Text, query: Text, k: nat)
    requires Lowered(text) && Lowered(query) && k <= |text|
    ensures Like(Escape(query) + [PERCENT], text[k..]) <==> OccursAt(text, query, k)
  {
    var tail := text[k..];
    EscapedIsLiteral(query, [PERCENT], tail);
    hide Like;
    if |query| <= |tail| {
      assert tail[..|query|] == text[k..k + |query|];
      AnythingFollows(tail[|query|..]);
    }
  }

  lemma {:induction false} AnythingFollows(text: Text)
    ensures Like([PERCENT], text)
    decreases |text|
  {
    if text != [] {
      AnythingFollows(text[1..]);
    } else {
      assert [PERCENT][1..] == [];
    }
  }

  // ---------- The query ----------

  datatype Query = Trigram(phrase: Text, likePattern: Text) | Short(token: string, likePattern: Text)

  /** Length in UTF-16 code units, which is what a string's length counts. */
  function Units(text: Text): (r: nat)
    ensures r >= |text| && (r == 1 ==> |text| == 1)
  {
    if text == [] then 0 else (if text[0] < 0x10000 then 1 else 2) + Units(text[1..])
  }

  const QUOTE: Scalar := '"' as int

  function Doubled(text: Text): Text {
    if text == [] then [] else (if text[0] == QUOTE then [QUOTE, QUOTE] else [text[0]]) + Doubled(text[1..])
  }

  /** substringSearchQuery, from the normalized query on. */
  function SearchQuery(normalized: Text): Option<Query> {
    if Units(normalized) < 2 then None
    else if |normalized| >= 3 then Some(Trigram([QUOTE] + Doubled(normalized) + [QUOTE], LikePattern(normalized)))
    else Some(Short(Token(normalized), LikePattern(normalized)))
  }

  /** The kinds of query: two characters, or one outside the basic plane, are short; a single
      ordinary character or nothing is no query. */
  lemma QueryKinds(normalized: Text)
    ensures SearchQuery(normalized).None? <==> normalized == [] || (|normalized| == 1 && normalized[0] < 0x10000)
    ensures SearchQuery(normalized).Some? && SearchQuery(normalized).value.Short? <==>
            |normalized| == 2 || (|normalized| == 1 && normalized[0] >= 0x10000)
  {
    if |normalized| == 1 {
      assert Units(normalized[1..]) == 0;
    }
  }

  /** For a short query the index and the pattern agree on every text, and both mean that the
      text contains the query, capitals A to Z aside. */
  lemma ShortSearchIsLiteral(text: Text, normalized: Text)
    requires Lowered(normalized) && SearchQuery(normalized).Some? && SearchQuery(normalized).value.Short?
    ensures var q := SearchQuery(normalized).value;
            && (q.token in Tokens(FoldAll(text)) <==> Contains(FoldAll(text), normalized))
            && (Like(q.likePattern, text) <==> Contains(FoldAll(text), normalized))
  {
    QueryKinds(normalized);
    hide Tokens, Token, Like, Contains;
    TokenFindsContained(FoldAll(text), normalized);
    LikeFindsContained(text, normalized);
  }

  /** A long query is one quoted phrase, and its pattern means the same containment. */
  lemma LongSearchIsLiteral(text: Text, normalized: Text)
    requires Lowered(normalized) && SearchQuery(normalized).Some? && SearchQuery(normalized).value.Trigram?
    ensures var q := SearchQuery(normalized).value;
            && q.phrase != [] && q.phrase[0] == QUOTE && Unquote(q.phrase[1..]) == Some(normalized)
            && (Like(q.likePattern, text) <==> Contains(FoldAll(text), normalized))
  {
    PhraseIsLiteral(normalized);
    hide Like, Contains, Unquote;
    LikeFindsContained(text, normalized);
    var quoted := Doubled(normalized) + [QUOTE];
    assert ([QUOTE] + Doubled(normalized) + [QUOTE])[1..] == quoted;
  }

  /** Reading a quoted phrase back: a doubled quote is one, a single one ends it. */
  function Unquote(text: Text): Option<Text> {
    if text == [] then None
    else if text[0] != QUOTE then
      var rest := Unquote(text[1..]);
      if rest.Some? then Some([text[0]] + rest.value) else None
    else if |text| == 1 then Some([])
    else if text[1] != QUOTE then None
    else
      var rest := Unquote(text[2..]);
      if rest.Some? then Some([QUOTE] + rest.value) else None
  }

  /** A long query reaches the index as one literal phrase, whatever operators it spells. */
  lemma {:induction false} PhraseIsLiteral(text: Text)
    ensures Unquote(Doubled(text) + [QUOTE]) == Some(text)
  {
    if text == [] {
      assert Doubled(text) + [QUOTE] == [QUOTE];
    } else {
      PhraseIsLiteral(text[1..]);
      var rest, head := Doubled(text[1..]) + [QUOTE], if text[0] == QUOTE then [QUOTE, QUOTE] else [text[0]];
      assert Doubled(text) + [QUOTE] == head + rest;
      assert (head + rest)[|head|..] == rest;
      assert text == [text[0]] + text[1..];
    }
  }
}
