/**
 JSON pointers as the smoke check reads them (RFC 6901): escapes are undone by two successive
 replacements, and a pointer is followed step by step into a document.
 */
module JsonPointer {
  import opened Domain
  import opened Slashes

  const LIMIT := 512

  /** Every `~` is followed by `0` or `1`. */
  predicate ValidEscapes(s: string) {
    forall i :: 0 <= i < |s| && s[i] == '~' ==> i + 1 < |s| && (s[i + 1] == '0' || s[i + 1] == '1')
  }

  /** Replaces each occurrence of the pair a, b from the left. */
  function Replace(s: string, a: char, b: char, with: char): string {
    if s == "" then ""
    else if |s| >= 2 && s[0] == a && s[1] == b then [with] + Replace(s[2..], a, b, with)
    else [s[0]] + Replace(s[1..], a, b, with)
  }

  /** The two replacements of the code, `~1` before `~0`. */
  function Decode(s: string): string {
    Replace(Replace(s, '~', '1', '/'), '~', '0', '~')
  }

  function DecodeAll(parts: seq<string>): seq<string> {
    seq(|parts|, i requires 0 <= i < |parts| => Decode(parts[i]))
  }

  /** The tokens of a pointer; `None` is a rejected pointer. */
  function PointerParts(pointer: string): Option<seq<string>> {
    if |pointer| > LIMIT || (pointer != "" && pointer[0] != '/') then None
    else if !ValidEscapes(pointer) then None
    else if pointer == "" then Some([])
    else Some(DecodeAll(Parts(pointer[1..])))
  }

  // ----- RFC 6901 -----

  /** Section 3: `~` is written `~0` and `/` is written `~1`. */
  function Escape(token: string): string {
    if token == "" then ""
    else (if token[0] == '~' then "~0" else if token[0] == '/' then "~1" else [token[0]]) + Escape(token[1..])
  }

  function EscapeAll(tokens: seq<string>): seq<string> {
    seq(|tokens|, i requires 0 <= i < |tokens| => Escape(tokens[i]))
  }

  function Encode(tokens: seq<string>): string {
    if tokens == [] then "" else "/" + Join(EscapeAll(tokens))
  }

  /** Section 4, in one pass from the left: each escape stands for one character. */
  function Unescape(s: string): string {
    if s == "" then ""
    else if |s| >= 2 && s[0] == '~' && s[1] == '0' then "~" + Unescape(s[2..])
    else if |s| >= 2 && s[0] == '~' && s[1] == '1' then "/" + Unescape(s[2..])
    else [s[0]] + Unescape(s[1..])
  }

  lemma ValidRest(s: string, n: nat)
    requires ValidEscapes(s) && n <= |s|
    ensures ValidEscapes(s[n..])
  {
    forall i | 0 <= i < |s[n..]| && s[n..][i] == '~'
      ensures i + 1 < |s[n..]| && (s[n..][i + 1] == '0' || s[n..][i + 1] == '1')
    {
      assert s[n + i] == '~';
    }
  }

  /** The first replacement leaves a leading `0` where it was, so it makes no new escape and hides none. */
  lemma FirstKeeps(s: string)
    requires s != "" && s[0] != '~'
    ensures Replace(s, '~', '1', '/') == [s[0]] + Replace(s[1..], '~', '1', '/')
  {
  }

  /** On valid escapes the two successive replacements equal the single left-to-right decoding. */
  lemma {:induction false} TwoPassesAreOne(s: string)
    requires ValidEscapes(s)
    ensures Decode(s) == Unescape(s)
    decreases |s|
  {
    if s != "" {
      if s[0] == '~' {
        assert |s| >= 2;
        ValidRest(s, 2);
        TwoPassesAreOne(s[2..]);
        var rest := Replace(s[2..], '~', '1', '/');
        if s[1] == '1' {
          assert Replace(s, '~', '1', '/') == ['/'] + rest;
          assert (['/'] + rest)[1..] == rest;
        } else {
          FirstKeeps(s[1..]);
          assert s[1..][1..] == s[2..];
          assert Replace(s, '~', '1', '/') == ['~'] + (['0'] + rest);
          assert (['~'] + (['0'] + rest))[2..] == rest;
        }
      } else {
        ValidRest(s, 1);
        TwoPassesAreOne(s[1..]);
        var rest := Replace(s[1..], '~', '1', '/');
        assert ([s[0]] + rest)[1..] == rest;
      }
    }
  }

  /** In the other order the replacements would be wrong: `~01` stands for `~1`, not for a slash. */
  lemma OrderMatters()
    ensures Unescape("~01") == "~1"
    ensures Replace(Replace("~01", '~', '0', '~'), '~', '1', '/') == "/"
  {
    assert "~01"[2..] == "1" && "~1"[2..] == "";
    assert Replace("1", '~', '0', '~') == "1";
    assert Unescape("1") == "1";
  }

  lemma {:induction false} EscapeValid(token: string)
    ensures ValidEscapes(Escape(token)) && '/' !in Escape(token)
  {
    if token != "" {
      EscapeValid(token[1..]);
    }
  }

  lemma {:induction false} UnescapeEscape(token: string)
    ensures Unescape(Escape(token)) == token
  {
    if token != "" {
      UnescapeEscape(token[1..]);
      var rest, e := Escape(token[1..]), Escape(token);
      assert token == [token[0]] + token[1..];
      if token[0] == '~' || token[0] == '/' {
        assert e[2..] == rest;
      } else {
        assert e[1..] == rest;
      }
    }
  }

  lemma {:induction false} EscapeUnescape(s: string)
    requires ValidEscapes(s) && '/' !in s
    ensures Escape(Unescape(s)) == s
    decreases |s|
  {
    if s != "" {
      if s[0] == '~' {
        ValidRest(s, 2);
        EscapeUnescape(s[2..]);
        assert s == [s[0], s[1]] + s[2..];
        assert Unescape(s)[1..] == Unescape(s[2..]);
      } else {
        ValidRest(s, 1);
        EscapeUnescape(s[1..]);
        assert s == [s[0]] + s[1..];
        assert Unescape(s)[1..] == Unescape(s[1..]);
      }
    }
  }

  // ----- Whole pointers -----

  lemma ValidJoined(a: string, b: string)
    requires ValidEscapes(a) && ValidEscapes(b)
    ensures ValidEscapes(a + "/" + b)
  {
    var s := a + "/" + b;
    forall i | 0 <= i < |s| && s[i] == '~'
      ensures i + 1 < |s| && (s[i + 1] == '0' || s[i + 1] == '1')
    {
      if i < |a| {
        assert a[i] == '~';
      } else {
        assert b[i - |a| - 1] == '~';
      }
    }
  }

  predicate AllValid(parts: seq<string>) {
    forall i :: 0 <= i < |parts| ==> ValidEscapes(parts[i])
  }

  lemma {:induction false} JoinValid(parts: seq<string>)
    requires parts != [] && AllValid(parts)
    ensures ValidEscapes(Join(parts))
  {
    if |parts| > 1 {
      JoinValid(parts[..|parts| - 1]);
      ValidJoined(Join(parts[..|parts| - 1]), parts[|parts| - 1]);
    }
  }

  lemma ValidSplit(a: string, b: string)
    requires ValidEscapes(a + "/" + b)
    ensures ValidEscapes(a) && ValidEscapes(b)
  {
    var s := a + "/" + b;
    ValidRest(s, |a| + 1);
    assert s[|a| + 1..] == b;
    forall i | 0 <= i < |a| && a[i] == '~'
      ensures i + 1 < |a| && (a[i + 1] == '0' || a[i + 1] == '1')
    {
      assert s[i] == '~' && s[i + 1] == if i + 1 < |a| then a[i + 1] else '/';
    }
  }

  lemma {:induction false} PartsValid(parts: seq<string>)
    requires parts != [] && ValidEscapes(Join(parts))
    ensures AllValid(parts)
  {
    if |parts| > 1 {
      ValidSplit(Join(parts[..|parts| - 1]), parts[|parts| - 1]);
      PartsValid(parts[..|parts| - 1]);
      assert parts == parts[..|parts| - 1] + [parts[|parts| - 1]];
    }
  }

  lemma EscapedPart(tokens: seq<string>, i: nat)
    requires i < |tokens|
    ensures var part := EscapeAll(tokens)[i]; ValidEscapes(part) && '/' !in part && Decode(part) == tokens[i]
  {
    EscapeValid(tokens[i]);
    TwoPassesAreOne(Escape(tokens[i]));
    UnescapeEscape(tokens[i]);
  }

  lemma EscapedParts(tokens: seq<string>)
    ensures AllValid(EscapeAll(tokens)) && SlashFree(EscapeAll(tokens)) && DecodeAll(EscapeAll(tokens)) == tokens
  {
    forall i | 0 <= i < |tokens|
      ensures ValidEscapes(EscapeAll(tokens)[i]) && '/' !in EscapeAll(tokens)[i] && Decode(EscapeAll(tokens)[i]) == tokens[i]
    {
      EscapedPart(tokens, i);
    }
  }

  lemma LeadingSlash(s: string)
    requires ValidEscapes(s)
    ensures ValidEscapes("/" + s) && ("/" + s)[1..] == s
  {
    ValidJoined("", s);
    assert "" + "/" + s == "/" + s;
  }

  /** For every token list whose encoding is within the limit, decoding the encoded pointer gives the tokens back. */
  lemma DecodeEncode(tokens: seq<string>)
    requires |Encode(tokens)| <= LIMIT
    ensures PointerParts(Encode(tokens)) == Some(tokens)
  {
    if tokens != [] {
      var parts := EscapeAll(tokens);
      EscapedParts(tokens);
      JoinValid(parts);
      LeadingSlash(Join(parts));
      JoinThenParts(parts);
    }
  }

  /** Every accepted pointer encodes back to itself. */
  lemma EncodeDecode(pointer: string)
    requires PointerParts(pointer).Some?
    ensures Encode(PointerParts(pointer).value) == pointer
  {
    if pointer != "" {
      var parts := Parts(pointer[1..]);
      PartsThenJoin(pointer[1..]);
      PartsSlashFree(pointer[1..]);
      ValidRest(pointer, 1);
      PartsValid(parts);
      forall i | 0 <= i < |parts|
        ensures Escape(Decode(parts[i])) == parts[i]
      {
        TwoPassesAreOne(parts[i]);
        EscapeUnescape(parts[i]);
      }
      assert EscapeAll(DecodeAll(parts)) == parts;
      assert pointer == "/" + pointer[1..];
    }
  }

  /** So exactly the encodings within the limit are accepted. */
  lemma AcceptedExactly(pointer: string)
    ensures PointerParts(pointer).Some? <==> |pointer| <= 512 && exists tokens :: Encode(tokens) == pointer
  {
    if PointerParts(pointer).Some? {
      EncodeDecode(pointer);
    }
    if tokens :| |pointer| <= LIMIT && Encode(tokens) == pointer {
      DecodeEncode(tokens);
    }
  }

  // ----- Following a pointer -----

  datatype Json = Object(members: map<string, Json>) | Array(items: seq<Json>) | Scalar(text: string)

  predicate Digit(ch: char) { '0' <= ch <= '9' }

  /** A decimal index without leading zeros. */
  predicate IsIndex(s: string) {
    s != "" && (forall i :: 0 <= i < |s| ==> Digit(s[i])) && (s[0] == '0' ==> s == "0")
  }

  function Number(s: string): nat
    requires forall i :: 0 <= i < |s| ==> Digit(s[i])
  {
    if s == "" then 0 else
      var last := s[|s| - 1];
      assert Digit(last);
      10 * Number(s[..|s| - 1]) + (last as int - '0' as int)
  }

  /** The member or item that a token names. */
  function Child(document: Json, token: string): Option<Json> {
    if document.Object? && token in document.members then Some(document.members[token])
    else if document.Array? && IsIndex(token) && Number(token) < |document.items| then Some(document.items[Number(token)])
    else None
  }

  function Descend(document: Json, tokens: seq<string>): Option<Json> {
    if tokens == [] then Some(document) else
      match Descend(document, tokens[..|tokens| - 1])
      case None => None
      case Some(inner) => Child(inner, tokens[|tokens| - 1])
  }

  lemma {:induction false} DescendFails(document: Json, tokens: seq<string>, i: nat)
    requires i <= |tokens| && Descend(document, tokens[..i]).None?
    ensures Descend(document, tokens).None?
    decreases |tokens| - i
  {
    if i < |tokens| {
      assert tokens[..i + 1][..i] == tokens[..i];
      DescendFails(document, tokens, i + 1);
    } else {
      assert tokens[..i] == tokens;
    }
  }

  datatype Selection = Selected(value: Json) | MissingPointer | InvalidPointer

  method Select(document: Json, pointer: string) returns (r: Selection)
    ensures r.InvalidPointer? <==> PointerParts(pointer).None?
    ensures PointerParts(pointer).Some? ==>
              r == if Descend(document, PointerParts(pointer).value).Some?
                   then Selected(Descend(document, PointerParts(pointer).value).value) else MissingPointer
  {
    var parts := PointerParts(pointer);
    if parts.None? {
      return InvalidPointer;
    }
    var tokens := parts.value;
    var current, i := document, 0;
    while i < |tokens|
      invariant i <= |tokens| && Descend(document, tokens[..i]) == Some(current)
    {
      var part := tokens[i];
      assert tokens[..i + 1][..i] == tokens[..i];
      if current.Object? && part in current.members {
        current := current.members[part];
      } else if current.Array? && IsIndex(part) {
        if Number(part) >= |current.items| {
          DescendFails(document, tokens, i + 1);
          return MissingPointer;
        }
        current := current.items[Number(part)];
      } else {
        DescendFails(document, tokens, i + 1);
        return MissingPointer;
      }
      i := i + 1;
    }
    assert tokens[..i] == tokens;
    return Selected(current);
  }

  // ----- Every value can be pointed at -----

  /** One step into a document. */
  datatype Step = Key(name: string) | Item(index: nat)

  function Reach(document: Json, path: seq<Step>): Option<Json> {
    if path == [] then Some(document) else
      match (Reach(document, path[..|path| - 1]), path[|path| - 1])
      case (Some(Object(members)), Key(name)) => if name in members then Some(members[name]) else None
      case (Some(Array(items)), Item(index)) => if index < |items| then Some(items[index]) else None
      case _ => None
  }

  function Decimal(n: nat): string {
    if n < 10 then ['0' + n as char] else Decimal(n / 10) + ['0' + (n % 10) as char]
  }

  lemma {:induction false} DecimalIsIndex(n: nat)
    ensures IsIndex(Decimal(n)) && Number(Decimal(n)) == n
    ensures n > 0 ==> Decimal(n)[0] != '0'
  {
    if n >= 10 {
      DecimalIsIndex(n / 10);
      var d := Decimal(n);
      assert d[..|d| - 1] == Decimal(n / 10);
    } else {
      assert Decimal(n)[..0] == "";
    }
  }

  function Token(step: Step): string {
    match step
    case Key(name) => name
    case Item(index) => Decimal(index)
  }

  function TokensOf(path: seq<Step>): seq<string> {
    seq(|path|, i requires 0 <= i < |path| => Token(path[i]))
  }

  lemma {:induction false} ReachedByTokens(document: Json, path: seq<Step>)
    requires Reach(document, path).Some?
    ensures Descend(document, TokensOf(path)) == Reach(document, path)
  {
    if path != [] {
      var front, last := path[..|path| - 1], path[|path| - 1];
      ReachedByTokens(document, front);
      assert TokensOf(path)[..|path| - 1] == TokensOf(front);
      if last.Item? {
        DecimalIsIndex(last.index);
      }
    }
  }

  /** The pointer that encodes the way to a value leads back to that value. */
  lemma PointerReaches(document: Json, path: seq<Step>)
    requires Reach(document, path).Some? && |Encode(TokensOf(path))| <= LIMIT
    ensures PointerParts(Encode(TokensOf(path))).Some?
    ensures Descend(document, PointerParts(Encode(TokensOf(path))).value) == Reach(document, path)
  {
    DecodeEncode(TokensOf(path));
    ReachedByTokens(document, path);
  }

  /** An index is the decimal writing of its number: there is no other one. */
  lemma {:induction false} IndexIsDecimal(s: string)
    requires IsIndex(s)
    ensures Decimal(Number(s)) == s
  {
    var front, last := s[..|s| - 1], s[|s| - 1];
    assert s == front + [last] && Digit(last);
    if front == "" {
      assert Number(s) == 10 * Number("") + (last as int - '0' as int);
    } else {
      assert forall i :: 0 <= i < |front| ==> front[i] == s[i];
      IndexIsDecimal(front);
      IndexIsPositive(front);
      LastDigit(Number(front), last as int - '0' as int);
    }
  }

  lemma LastDigit(n: nat, d: nat)
    requires d < 10
    ensures (10 * n + d) / 10 == n && (10 * n + d) % 10 == d
  {
  }

  lemma {:induction false} IndexIsPositive(s: string)
    requires IsIndex(s) && s[0] != '0'
    ensures Number(s) > 0
  {
    var front := s[..|s| - 1];
    if front != "" {
      assert forall i :: 0 <= i < |front| ==> front[i] == s[i];
      IndexIsPositive(front);
    }
  }

  /** Whatever tokens lead to is reached by a way whose tokens they are. */
  lemma {:induction false} TokensReach(document: Json, tokens: seq<string>) returns (path: seq<Step>)
    requires Descend(document, tokens).Some?
    ensures TokensOf(path) == tokens && Reach(document, path) == Descend(document, tokens)
  {
    path := [];
    if tokens != [] {
      var front, last := tokens[..|tokens| - 1], tokens[|tokens| - 1];
      var before := TokensReach(document, front);
      var inner := Descend(document, front).value;
      var step := if inner.Object? then Key(last) else Item(Number(last));
      if inner.Array? {
        IndexIsDecimal(last);
      }
      path := before + [step];
      assert path[..|path| - 1] == before;
      assert TokensOf(path) == TokensOf(before) + [last] == tokens;
    }
  }

  /** So an accepted pointer leads to a value exactly along the one way that it encodes, if the document has that way. */
  lemma PointerExactly(document: Json, pointer: string, value: Json)
    requires PointerParts(pointer).Some?
    ensures Descend(document, PointerParts(pointer).value) == Some(value) <==>
            exists path :: Encode(TokensOf(path)) == pointer && Reach(document, path) == Some(value)
  {
    EncodeDecode(pointer);
    var tokens := PointerParts(pointer).value;
    if Descend(document, tokens).Some? {
      var path := TokensReach(document, tokens);
    }
    if path :| Encode(TokensOf(path)) == pointer && Reach(document, path) == Some(value) {
      PointerReaches(document, path);
    }
  }
}
