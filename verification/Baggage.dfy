/**
 Ingress names a composition in the baggage header, and mesh routes select on it by a regular
 expression over the whole header. The expressions used have a small syntax, whose meaning is spelled
 out here and compared with a plain reading of the header: members between commas, a key and a value
 around the first equals sign, properties after the first semicolon.
 */
module Baggage {

  // ----- Regular expressions -----

  datatype CharClass = Dot | Space | NotComma {
    predicate Has(ch: char) {
      match this
      case Dot => ch != '\n'
      case Space => ch == ' ' || ch == '\t'
      case NotComma => ch != ','
    }
  }

  datatype Regex =
    | Lit(text: string)
    | Many(of: CharClass)
    | Optional(body: Regex)
    | Cat(first: Regex, rest: Regex)

  /** Whether the expression matches all of s. */
  ghost predicate Matches(r: Regex, s: string) {
    match r
    case Lit(text) => s == text
    case Many(of) => forall i :: 0 <= i < |s| ==> of.Has(s[i])
    case Optional(body) => s == "" || Matches(body, s)
    case Cat(first, rest) => exists i :: 0 <= i <= |s| && Matches(first, s[..i]) && Matches(rest, s[i..])
  }

  const KEY := "composition"

  /** A literal between blanks, and then something else. */
  function Padded(text: string, rest: Regex): Regex {
    Cat(Many(Space), Cat(Lit(text), Cat(Many(Space), rest)))
  }

  function Properties(): Regex {
    Optional(Cat(Lit(";"), Many(NotComma)))
  }

  function MemberFor(key: string, id: string): Regex {
    Padded(key, Cat(Lit("="), Padded(id, Properties())))
  }

  function Member(id: string): Regex {
    MemberFor(KEY, id)
  }

  function Before(): Regex {
    Optional(Cat(Many(Dot), Lit(",")))
  }

  function After(): Regex {
    Optional(Cat(Lit(","), Many(Dot)))
  }

  function PatternFor(key: string, id: string): Regex {
    Cat(Before(), Cat(MemberFor(key, id), After()))
  }

  function BaggagePattern(id: string): Regex {
    PatternFor(KEY, id)
  }

  // ----- Their text -----

  predicate Special(ch: char) {
    ch == '\\' || ch == '.' || ch == '+' || ch == '*' || ch == '?' || ch == '(' || ch == ')' || ch == '|' ||
    ch == '[' || ch == ']' || ch == '{' || ch == '}' || ch == '^' || ch == '$'
  }

  function QuoteMeta(s: string): string {
    if s == "" then ""
    else (if Special(s[0]) then ['\\', s[0]] else [s[0]]) + QuoteMeta(s[1..])
  }

  function ClassText(c: CharClass): string {
    match c
    case Dot => "."
    case Space => "[ \\t]"
    case NotComma => "[^,]"
  }

  function Text(r: Regex): string {
    match r
    case Lit(text) => QuoteMeta(text)
    case Many(of) => ClassText(of) + "*"
    case Optional(body) => "(" + Text(body) + ")?"
    case Cat(first, rest) => Text(first) + Text(rest)
  }

  lemma {:induction false} PlainQuoted(s: string)
    requires forall i :: 0 <= i < |s| ==> !Special(s[i])
    ensures QuoteMeta(s) == s
  {
    if s != "" {
      PlainQuoted(s[1..]);
      assert s == [s[0]] + s[1..];
    }
  }

  const BLANKS := "[ \\t]*"

  lemma PaddedText(text: string, rest: Regex)
    ensures Text(Padded(text, rest)) == BLANKS + (QuoteMeta(text) + (BLANKS + Text(rest)))
  {
    assert Text(Cat(Many(Space), rest)) == BLANKS + Text(rest);
    assert Text(Cat(Lit(text), Cat(Many(Space), rest))) == QuoteMeta(text) + Text(Cat(Many(Space), rest));
  }

  lemma CatText(a: Regex, b: Regex)
    ensures Text(Cat(a, b)) == Text(a) + Text(b)
  {
  }

  lemma MemberText(key: string, equals: string, id: string, rest: Regex)
    ensures Text(Padded(key, Cat(Lit(equals), Padded(id, rest)))) ==
            BLANKS + (QuoteMeta(key) + (BLANKS + (QuoteMeta(equals) + (BLANKS + (QuoteMeta(id) + (BLANKS + Text(rest)))))))
  {
    PaddedText(id, rest);
    CatText(Lit(equals), Padded(id, rest));
    PaddedText(key, Cat(Lit(equals), Padded(id, rest)));
  }

  lemma WholeText(before: Regex, key: string, equals: string, id: string, rest: Regex, after: Regex, b: string, r: string, a: string)
    requires Text(before) == b && Text(rest) == r && Text(after) == a && QuoteMeta(key) == key && QuoteMeta(equals) == equals
    ensures Text(Cat(before, Cat(Padded(key, Cat(Lit(equals), Padded(id, rest))), after))) ==
            b + ((BLANKS + (key + (BLANKS + (equals + (BLANKS + (QuoteMeta(id) + (BLANKS + r))))))) + a)
  {
    MemberText(key, equals, id, rest);
    CatText(Padded(key, Cat(Lit(equals), Padded(id, rest))), after);
    CatText(before, Cat(Padded(key, Cat(Lit(equals), Padded(id, rest))), after));
  }

  /** The expression as it is written into route configuration, between its anchors, for any plain key. */
  lemma PatternText(key: string, id: string)
    requires forall i :: 0 <= i < |key| ==> !Special(key[i])
    ensures Text(PatternFor(key, id)) ==
            "(.*,)?" + ((BLANKS + (key + (BLANKS + ("=" + (BLANKS + (QuoteMeta(id) + (BLANKS + "(;[^,]*)?"))))))) + "(,.*)?")
  {
    PlainQuoted(key);
    PlainQuoted("=");
    OptionText();
    WholeText(Before(), key, "=", id, Properties(), After(), "(.*,)?", "(;[^,]*)?", "(,.*)?");
  }

  /** So for a composition it is this expression. */
  lemma BaggageText(id: string)
    ensures Text(BaggagePattern(id)) ==
            "(.*,)?" + (("[ \\t]*" + ("composition" + ("[ \\t]*" + ("=" + ("[ \\t]*" + (QuoteMeta(id) +
            ("[ \\t]*" + "(;[^,]*)?"))))))) + "(,.*)?")
  {
    PatternText("composition", id);
  }

  /** Means something in an expression unless a backslash stands before it. */
  predicate Meta(ch: char) {
    ch in {'\\', '.', '+', '*', '?', '(', ')', '|', '[', ']', '{', '}', '^', '$'}
  }

  /** The text that an expression of escaped and ordinary characters stands for, if it is one. */
  function Literally(text: string): (r: seq<string>)
    ensures |r| <= 1
  {
    if text == "" then [""]
    else if text[0] == '\\' then
      if |text| == 1 || !Meta(text[1]) || Literally(text[2..]) == [] then [] else [[text[1]] + Literally(text[2..])[0]]
    else if Meta(text[0]) || Literally(text[1..]) == [] then []
    else [[text[0]] + Literally(text[1..])[0]]
  }

  /** A quoted id stands for itself, whatever is in it. */
  lemma {:induction false} QuotedLiterally(s: string)
    ensures Literally(QuoteMeta(s)) == [s]
  {
    if s != "" {
      QuotedLiterally(s[1..]);
      var rest := QuoteMeta(s[1..]);
      if Special(s[0]) {
        assert QuoteMeta(s)[2..] == rest;
      } else {
        assert QuoteMeta(s)[1..] == rest;
      }
      assert s == [s[0]] + s[1..];
    }
  }

  lemma OptionText()
    ensures Text(Before()) == "(.*,)?" && Text(After()) == "(,.*)?" && Text(Properties()) == "(;[^,]*)?"
  {
    PlainQuoted(",");
    PlainQuoted(";");
    assert Text(Cat(Many(Dot), Lit(","))) == ".*,";
    assert Text(Cat(Lit(","), Many(Dot))) == ",.*";
    assert Text(Cat(Lit(";"), Many(NotComma))) == ";[^,]*";
  }

  // ----- A plain reading of the header -----

  /** The first position of ch, or the length of s. */
  function IndexOf(s: string, ch: char): (i: nat)
    ensures i <= |s| && (i < |s| ==> s[i] == ch) && ch !in s[..i]
  {
    if s == "" || s[0] == ch then 0
    else
      var i := IndexOf(s[1..], ch);
      assert s[..i + 1] == [s[0]] + s[1..][..i];
      i + 1
  }

  predicate Blank(ch: char) { ch == ' ' || ch == '\t' }

  predicate AllBlank(s: string) {
    forall i :: 0 <= i < |s| ==> Blank(s[i])
  }

  predicate Trimmed(s: string) {
    s != "" ==> !Blank(s[0]) && !Blank(s[|s| - 1])
  }

  function Trim(s: string): (r: string)
    ensures Trimmed(r)
  {
    if s != "" && Blank(s[0]) then Trim(s[1..])
    else if s != "" && Blank(s[|s| - 1]) then Trim(s[..|s| - 1])
    else s
  }

  /** The composition that one member names, if its key is the composition key. */
  function NamedBy(member: string): (r: seq<string>) {
    var bare := member[..IndexOf(member, ';')];
    var i := IndexOf(bare, '=');
    if i < |bare| && Trim(bare[..i]) == KEY then [Trim(bare[i + 1..])] else []
  }

  /** header[b..e] is one of the comma-separated members of a header. */
  predicate IsMember(header: string, b: int, e: int) {
    && 0 <= b <= e <= |header| && ',' !in header[b..e]
    && (b == 0 || header[b - 1] == ',') && (e == |header| || header[e] == ',')
  }

  // ----- One member -----

  lemma {:induction false} TrimSplits(s: string) returns (before: string, after: string)
    ensures s == before + Trim(s) + after && AllBlank(before) && AllBlank(after)
  {
    if s != "" && Blank(s[0]) {
      before, after := TrimSplits(s[1..]);
      before := [s[0]] + before;
      assert s == [s[0]] + s[1..];
    } else if s != "" && Blank(s[|s| - 1]) {
      before, after := TrimSplits(s[..|s| - 1]);
      after := after + [s[|s| - 1]];
      assert s == s[..|s| - 1] + [s[|s| - 1]];
    } else {
      before, after := "", "";
    }
  }

  lemma {:induction false} TrimDrops(before: string, s: string, after: string)
    requires AllBlank(before) && AllBlank(after) && Trimmed(s)
    ensures Trim(before + s + after) == s
    decreases |before| + |after|
  {
    var whole := before + s + after;
    if before != "" {
      assert whole[1..] == before[1..] + s + after;
      TrimDrops(before[1..], s, after);
    } else if after != "" {
      assert whole[..|whole| - 1] == s + after[..|after| - 1] == before + s + after[..|after| - 1];
      if Blank(whole[0]) {
        assert s == "";
        assert whole[1..] == after[1..] == before + s + after[1..];
        TrimDrops(before, s, after[1..]);
      } else {
        TrimDrops(before, s, after[..|after| - 1]);
      }
    } else {
      assert whole == s;
    }
  }

  /** s is t with blanks around it. */
  ghost predicate Around(t: string, s: string) {
    exists u, v :: AllBlank(u) && AllBlank(v) && s == u + t + v
  }

  lemma AroundExact(t: string, s: string)
    requires Trimmed(t)
    ensures Around(t, s) <==> Trim(s) == t
  {
    if Around(t, s) {
      var u, v :| AllBlank(u) && AllBlank(v) && s == u + t + v;
      TrimDrops(u, t, v);
    }
    var u, v := TrimSplits(s);
  }

  lemma LitCat(t: string, r: Regex, s: string)
    ensures Matches(Cat(Lit(t), r), s) <==> |t| <= |s| && s[..|t|] == t && Matches(r, s[|t|..])
  {
  }

  /** The first i characters of s are of the class. */
  predicate Leading(c: CharClass, s: string, i: int) {
    0 <= i <= |s| && forall k :: 0 <= k < i ==> c.Has(s[k])
  }

  lemma LeadingMatches(c: CharClass, s: string, i: nat)
    requires i <= |s|
    ensures Matches(Many(c), s[..i]) <==> Leading(c, s, i)
  {
    assert forall k :: 0 <= k < i ==> s[..i][k] == s[k];
  }

  lemma ManyCat(c: CharClass, r: Regex, s: string)
    ensures Matches(Cat(Many(c), r), s) <==> exists i :: Leading(c, s, i) && Matches(r, s[i..])
  {
    if Matches(Cat(Many(c), r), s) {
      var i := CatSplit(Many(c), r, s);
      LeadingMatches(c, s, i);
    }
    if i :| Leading(c, s, i) && Matches(r, s[i..]) {
      LeadingMatches(c, s, i);
      CatJoin(Many(c), r, s, i);
    }
  }

  lemma BlanksThen(r: Regex, s: string) returns (i: nat)
    requires Matches(Cat(Many(Space), r), s)
    ensures i <= |s| && AllBlank(s[..i]) && Matches(r, s[i..])
  {
    ManyCat(Space, r, s);
    var a :| Leading(Space, s, a) && Matches(r, s[a..]);
    i := a;
  }

  lemma PaddedSplits(t: string, r: Regex, s: string) returns (i: nat)
    requires Matches(Padded(t, r), s)
    ensures i <= |s| && Around(t, s[..i]) && Matches(r, s[i..])
  {
    var a := BlanksThen(Cat(Lit(t), Cat(Many(Space), r)), s);
    LitCat(t, Cat(Many(Space), r), s[a..]);
    var rest := s[a..][|t|..];
    var b := BlanksThen(r, rest);
    i := a + |t| + b;
    AroundAt(t, s, a, b);
    assert s[i..] == rest[b..];
  }

  lemma AroundAt(t: string, s: string, a: nat, b: nat)
    requires a + |t| + b <= |s| && s[a..][..|t|] == t && AllBlank(s[..a]) && AllBlank(s[a..][|t|..][..b])
    ensures Around(t, s[..a + |t| + b])
  {
    assert s[..a + |t| + b] == s[..a] + t + s[a..][|t|..][..b];
  }

  lemma ThenBlanks(u: string, r: Regex, t: string)
    requires AllBlank(u) && Matches(r, t)
    ensures Matches(Cat(Many(Space), r), u + t)
  {
    assert (u + t)[..|u|] == u && (u + t)[|u|..] == t;
    CatJoin(Many(Space), r, u + t, |u|);
  }

  lemma PaddedJoins(t: string, r: Regex, s: string, i: nat)
    requires i <= |s| && Around(t, s[..i]) && Matches(r, s[i..])
    ensures Matches(Padded(t, r), s)
  {
    var u, v :| AllBlank(u) && AllBlank(v) && s[..i] == u + t + v;
    ThenBlanks(v, r, s[i..]);
    var rest := v + s[i..];
    assert (t + rest)[..|t|] == t && (t + rest)[|t|..] == rest;
    LitCat(t, Cat(Many(Space), r), t + rest);
    ThenBlanks(u, Cat(Lit(t), Cat(Many(Space), r)), t + rest);
    Regrouped(u, t, v, s[i..]);
    assert s == s[..i] + s[i..];
  }

  lemma Regrouped(u: string, t: string, v: string, w: string)
    ensures u + t + v + w == u + (t + (v + w))
  {
  }

  predicate IsProperties(t: string) {
    t == "" || (t[0] == ';' && ',' !in t)
  }

  lemma PropertiesExact(t: string)
    ensures Matches(Properties(), t) <==> IsProperties(t)
  {
    LitCat(";", Many(NotComma), t);
    if t != "" {
      assert t == [t[0]] + t[1..];
      assert t[..1] == ";" <==> t[0] == ';';
    }
  }

  /** An id that a header can carry unambiguously. */
  predicate Plain(id: string) {
    ',' !in id && ';' !in id && Trimmed(id)
  }

  lemma IndexAt(s: string, i: nat, ch: char)
    requires i <= |s| && ch !in s[..i] && (i < |s| ==> s[i] == ch)
    ensures IndexOf(s, ch) == i
  {
    var j := IndexOf(s, ch);
  }

  /** Where the parts of a member end: its key at i, its value at j, the rest being properties. */
  ghost predicate Parted(m: string, id: string, i: int, j: int) {
    && 0 <= i < j <= |m| && m[i] == '=' && Around(KEY, m[..i]) && Around(id, m[i + 1..j]) && IsProperties(m[j..])
  }

  lemma MatchParts(m: string, id: string) returns (i: int, j: int)
    requires Matches(Member(id), m)
    ensures Parted(m, id, i, j)
  {
    var rest := Cat(Lit("="), Padded(id, Properties()));
    i := PaddedSplits(KEY, rest, m);
    LitCat("=", Padded(id, Properties()), m[i..]);
    assert m[i..][..1] == "=" && m[i] == '=';
    assert m[i..][1..] == m[i + 1..];
    var n := PaddedSplits(id, Properties(), m[i + 1..]);
    j := i + 1 + n;
    assert m[i + 1..][..n] == m[i + 1..j] && m[i + 1..][n..] == m[j..];
    PropertiesExact(m[j..]);
  }

  lemma PartsMatch(m: string, id: string, i: int, j: int)
    requires Parted(m, id, i, j)
    ensures Matches(Member(id), m)
  {
    var n := j - i - 1;
    assert m[i + 1..][..n] == m[i + 1..j] && m[i + 1..][n..] == m[j..];
    PropertiesExact(m[j..]);
    PaddedJoins(id, Properties(), m[i + 1..], n);
    assert m[i..][..1] == "=" && m[i..][1..] == m[i + 1..];
    LitCat("=", Padded(id, Properties()), m[i..]);
    PaddedJoins(KEY, Cat(Lit("="), Padded(id, Properties())), m, i);
  }

  lemma AroundFree(t: string, s: string, ch: char)
    requires Around(t, s) && ch !in t && !Blank(ch)
    ensures ch !in s
  {
    var u, v :| AllBlank(u) && AllBlank(v) && s == u + t + v;
  }

  lemma PartsNamed(m: string, id: string, i: int, j: int)
    requires Parted(m, id, i, j) && Plain(id)
    ensures NamedBy(m) == [id]
  {
    var bare := m[..j];
    AroundFree(KEY, m[..i], ';');
    AroundFree(KEY, m[..i], '=');
    AroundFree(id, m[i + 1..j], ';');
    assert bare == m[..i] + "=" + m[i + 1..j];
    assert m[j..] != "" ==> m[j] == m[j..][0];
    IndexAt(m, j, ';');
    assert bare[..i] == m[..i] && bare[i + 1..] == m[i + 1..j];
    IndexAt(bare, i, '=');
    AroundExact(KEY, m[..i]);
    AroundExact(id, m[i + 1..j]);
  }

  lemma NamedParts(m: string, id: string) returns (i: int, j: int)
    requires NamedBy(m) == [id] && ',' !in m && Trimmed(id)
    ensures Parted(m, id, i, j)
  {
    j := IndexOf(m, ';');
    i := IndexOf(m[..j], '=');
    assert m[..j][..i] == m[..i] && m[..j][i + 1..] == m[i + 1..j];
    AroundExact(KEY, m[..i]);
    AroundExact(id, m[i + 1..j]);
    assert forall k :: 0 <= k < |m[j..]| ==> m[j..][k] == m[j + k];
  }

  /** A member without commas matches exactly when it names the id. */
  lemma MemberExact(m: string, id: string)
    requires Plain(id) && ',' !in m
    ensures Matches(Member(id), m) <==> NamedBy(m) == [id]
  {
    if Matches(Member(id), m) {
      var i, j := MatchParts(m, id);
      PartsNamed(m, id, i, j);
    }
    if NamedBy(m) == [id] {
      var i, j := NamedParts(m, id);
      PartsMatch(m, id, i, j);
    }
  }

  // ----- The whole header -----

  predicate EndsMember(s: string) {
    s == "" || (s[|s| - 1] == ',' && '\n' !in s)
  }

  predicate StartsMember(s: string) {
    s == "" || (s[0] == ',' && '\n' !in s)
  }

  lemma BeforeExact(s: string)
    ensures Matches(Before(), s) <==> EndsMember(s)
  {
    ManyCat(Dot, Lit(","), s);
    if s != "" {
      var n := |s| - 1;
      assert s[n..] == [s[n]];
      assert s == s[..n] + [s[n]];
      assert EndsMember(s) ==> Matches(Lit(","), s[n..]) && Leading(Dot, s, n);
      if i :| Leading(Dot, s, i) && Matches(Lit(","), s[i..]) {
        assert i == n;
      }
    }
  }

  lemma AfterExact(s: string)
    ensures Matches(After(), s) <==> StartsMember(s)
  {
    LitCat(",", Many(Dot), s);
    if s != "" {
      assert s == [s[0]] + s[1..];
      assert s[..1] == "," <==> s[0] == ',';
    }
  }

  lemma PartsCommaFree(m: string, id: string, i: int, j: int)
    requires Parted(m, id, i, j) && ',' !in id
    ensures ',' !in m
  {
    AroundFree(KEY, m[..i], ',');
    AroundFree(id, m[i + 1..j], ',');
    assert m == m[..i] + "=" + m[i + 1..j] + m[j..];
  }

  lemma CatSplit(a: Regex, b: Regex, s: string) returns (i: nat)
    requires Matches(Cat(a, b), s)
    ensures i <= |s| && Matches(a, s[..i]) && Matches(b, s[i..])
  {
    i :| 0 <= i <= |s| && Matches(a, s[..i]) && Matches(b, s[i..]);
  }

  lemma CatJoin(a: Regex, b: Regex, s: string, i: nat)
    requires i <= |s| && Matches(a, s[..i]) && Matches(b, s[i..])
    ensures Matches(Cat(a, b), s)
  {
  }

  /** The header names this composition in one of its members, with no line break in the others. */
  ghost predicate Names(header: string, id: string) {
    exists b, e :: IsMember(header, b, e) && NamedBy(header[b..e]) == [id] && '\n' !in header[..b] && '\n' !in header[e..]
  }

  /** The expression for an id matches exactly the headers with a member that names it. */
  lemma LanguageExact(id: string, header: string)
    requires Plain(id)
    ensures Matches(BaggagePattern(id), header) <==> Names(header, id)
  {
    if Matches(BaggagePattern(id), header) {
      MatchIsNamed(id, header);
    }
    if Names(header, id) {
      var b, e :| IsMember(header, b, e) && NamedBy(header[b..e]) == [id] && '\n' !in header[..b] && '\n' !in header[e..];
      NamedMatches(id, header, b, e);
    }
  }

  lemma MatchIsNamed(id: string, header: string)
    requires Plain(id) && Matches(BaggagePattern(id), header)
    ensures Names(header, id)
  {
    var b := CatSplit(Before(), Cat(Member(id), After()), header);
    var n := CatSplit(Member(id), After(), header[b..]);
    var e := b + n;
    assert header[b..][..n] == header[b..e] && header[b..][n..] == header[e..];
    BeforeExact(header[..b]);
    AfterExact(header[e..]);
    var i, j := MatchParts(header[b..e], id);
    PartsCommaFree(header[b..e], id, i, j);
    PartsNamed(header[b..e], id, i, j);
    MemberAt(header, b, e);
  }

  lemma MemberAt(header: string, b: nat, e: nat)
    requires b <= e <= |header| && EndsMember(header[..b]) && StartsMember(header[e..]) && ',' !in header[b..e]
    ensures IsMember(header, b, e) && '\n' !in header[..b] && '\n' !in header[e..]
  {
    assert b > 0 ==> header[..b][b - 1] == header[b - 1];
    assert e < |header| ==> header[e..][0] == header[e];
  }

  lemma NamedMatches(id: string, header: string, b: nat, e: nat)
    requires Plain(id) && IsMember(header, b, e) && NamedBy(header[b..e]) == [id]
    requires '\n' !in header[..b] && '\n' !in header[e..]
    ensures Matches(BaggagePattern(id), header)
  {
    assert b > 0 ==> header[..b][b - 1] == header[b - 1];
    assert e < |header| ==> header[e..][0] == header[e];
    BeforeExact(header[..b]);
    AfterExact(header[e..]);
    MemberExact(header[b..e], id);
    assert header[b..][..e - b] == header[b..e] && header[b..][e - b..] == header[e..];
    CatJoin(Member(id), After(), header[b..], e - b);
    CatJoin(Before(), Cat(Member(id), After()), header, b);
  }

  // ----- The header that ingress sets -----

  const FLAG_KEY := "envy_message_isolation"

  function IngressBaggage(id: string, isolated: bool): string {
    KEY + "=" + id + "," + Flag(isolated)
  }

  function Flag(isolated: bool): string {
    FLAG_KEY + "=" + if isolated then "true" else "false"
  }

  /** The header in full. */
  lemma IngressText(id: string, isolated: bool)
    ensures IngressBaggage(id, isolated) ==
            "composition" + "=" + id + "," + ("envy_message_isolation" + "=" + if isolated then "true" else "false")
  {
  }

  /** A member under any other key names no composition. */
  lemma OtherKeyNamesNothing(key: string, value: string)
    requires Trimmed(key) && key != KEY && ';' !in key && '=' !in key && ';' !in value
    ensures NamedBy(key + "=" + value) == []
  {
    var m := key + "=" + value;
    IndexAt(m, |m|, ';');
    assert m[..|m|] == m;
    assert m[..|key|] == key;
    IndexAt(m, |key|, '=');
    TrimDrops("", key, "");
    assert "" + key + "" == key;
  }

  lemma FlagNamesNothing(isolated: bool)
    ensures NamedBy(Flag(isolated)) == []
  {
    assert FLAG_KEY[0] == 'e' && KEY[0] == 'c';
    OtherKeyNamesNothing(FLAG_KEY, if isolated then "true" else "false");
  }

  lemma OwnMember(id: string, tail: string)
    requires Plain(id) && IsProperties(tail)
    ensures NamedBy(KEY + "=" + id + tail) == [id]
  {
    var m, i, j := KEY + "=" + id + tail, |KEY|, |KEY| + 1 + |id|;
    assert m[..i] == "" + KEY + "" && m[i + 1..j] == "" + id + "" && m[j..] == tail;
    assert AllBlank("");
    PartsNamed(m, id, i, j);
  }

  /** Two members joined by a comma are all the members there are. */
  lemma TwoMembers(x: string, y: string, b: int, e: int)
    requires ',' !in x && ',' !in y
    ensures var h := x + "," + y;
            && (IsMember(h, b, e) <==> (b == 0 && e == |x|) || (b == |x| + 1 && e == |h|))
            && h[..|x|] == x && h[|x|] == ',' && h[|x| + 1..] == y
  {
    var h := x + "," + y;
    assert h[..|x|] == x && h[|x|] == ',' && h[|x| + 1..] == y;
    assert forall i :: 0 <= i < |x| ==> h[i] == x[i];
    assert forall i :: |x| < i < |h| ==> h[i] == y[i - |x| - 1];
    assert 0 <= b <= |x| < e <= |h| ==> h[|x|] in h[b..e];
  }

  lemma OnlyOwnNamed(own: string, other: string, a: string, i: int, j: int)
    requires ',' !in own && ',' !in other && NamedBy(other) == []
    requires IsMember(own + "," + other, i, j) && NamedBy((own + "," + other)[i..j]) == [a]
    ensures NamedBy(own) == [a]
  {
    TwoMembers(own, other, i, j);
    var h := own + "," + other;
    assert h[0..|own|] == own && h[|own| + 1..|h|] == other;
  }

  lemma SelectsOne(own: string, other: string, a: string, b: string)
    requires ',' !in own && NamedBy(own) == [b] && ',' !in other && '\n' !in other && NamedBy(other) == []
    ensures Names(own + "," + other, a) <==> a == b
  {
    var h := own + "," + other;
    if Names(h, a) {
      var i, j :| IsMember(h, i, j) && NamedBy(h[i..j]) == [a];
      OnlyOwnNamed(own, other, a, i, j);
    }
    TwoMembers(own, other, 0, |own|);
    assert h[0..|own|] == own && h[|own|..] == "," + other && h[..0] == "";
    assert IsMember(h, 0, |own|) && NamedBy(h[0..|own|]) == [b];
  }

  lemma FlagPlain(isolated: bool)
    ensures ',' !in Flag(isolated) && '\n' !in Flag(isolated)
  {
  }

  /** Among plain ids, each ingress header selects exactly one: its own. */
  lemma IngressSelectsOne(a: string, b: string, isolated: bool)
    requires Plain(a) && Plain(b)
    ensures Matches(BaggagePattern(a), IngressBaggage(b, isolated)) <==> a == b
  {
    LanguageExact(a, IngressBaggage(b, isolated));
    OwnMember(b, "");
    assert KEY + "=" + b + "" == KEY + "=" + b;
    FlagNamesNothing(isolated);
    FlagPlain(isolated);
    SelectsOne(KEY + "=" + b, Flag(isolated), a, b);
  }

  /** An id as the platform issues them: twelve random bytes in hexadecimal. */
  predicate Issued(id: string) {
    |id| == 24 && forall i :: 0 <= i < 24 ==> '0' <= id[i] <= '9' || 'a' <= id[i] <= 'f'
  }

  /** So the header of an issued id selects that composition and no other issued one. */
  lemma IssuedSelectsOne(a: string, b: string, isolated: bool)
    requires Issued(a) && Issued(b)
    ensures Matches(BaggagePattern(a), IngressBaggage(b, isolated)) <==> a == b
  {
    IngressSelectsOne(a, b, isolated);
  }

  lemma Embedded(before: string, own: string, after: string, id: string)
    requires EndsMember(before) && StartsMember(after) && ',' !in own && Plain(id) && NamedBy(own) == [id]
    ensures Matches(BaggagePattern(id), before + own + after)
  {
    var h, b, e := before + own + after, |before|, |before| + |own|;
    assert h[..b] == before && h[b..e] == own && h[e..] == after;
    MemberAt(h, b, e);
    NamedMatches(id, h, b, e);
  }

  // ----- Ids that are not plain -----

  /** An id that contains another one as a member of its own: its header selects that one as well. */
  lemma CommaSelectsAnother(x: string, a: string, isolated: bool)
    requires Plain(a) && '\n' !in x
    ensures Matches(BaggagePattern(a), IngressBaggage(x + "," + (KEY + "=" + a), isolated))
  {
    FlagPlain(isolated);
    OwnMember(a, "");
    assert KEY + "=" + a + "" == KEY + "=" + a;
    CommaSelects(KEY + "=" + x, KEY + "=" + a, a, Flag(isolated));
    RegroupMembers(KEY + "=", x, KEY + "=" + a, Flag(isolated));
  }

  lemma RegroupMembers(key: string, x: string, own: string, other: string)
    ensures key + (x + "," + own) + "," + other == key + x + "," + own + ("," + other)
  {
  }

  lemma CommaSelects(first: string, own: string, a: string, other: string)
    requires Plain(a) && ',' !in own && NamedBy(own) == [a] && '\n' !in first && '\n' !in other
    ensures Matches(BaggagePattern(a), first + "," + own + ("," + other))
  {
    Embedded(first + ",", own, "," + other, a);
  }

  /** What a header says for any id: the part before its first comma or semicolon, trimmed. */
  function Heard(id: string): string {
    var member := id[..IndexOf(id, ',')];
    Trim(member[..IndexOf(member, ';')])
  }

  lemma TrimFree(s: string, ch: char)
    requires ch !in s
    ensures ch !in Trim(s)
  {
    var u, v := TrimSplits(s);
    assert forall k :: 0 <= k < |Trim(s)| ==> Trim(s)[k] == s[|u| + k];
  }

  lemma HeardPlain(id: string)
    ensures Plain(Heard(id))
  {
    var member := id[..IndexOf(id, ',')];
    var value := member[..IndexOf(member, ';')];
    assert forall k :: 0 <= k < |value| ==> value[k] == member[k];
    TrimFree(value, ',');
    TrimFree(value, ';');
  }

  lemma FirstSplits(before: string, ch: char, after: string)
    requires ch !in before
    ensures var s := before + [ch] + after; IndexOf(s, ch) == |before| && s[..|before|] == before && s[|before| + 1..] == after
  {
    var s := before + [ch] + after;
    assert s[..|before|] == before && s[|before|] == ch;
    IndexAt(s, |before|, ch);
  }

  lemma BareMember(key: string, member: string)
    requires ';' !in key
    ensures var m := key + "=" + member; m[..IndexOf(m, ';')] == key + "=" + member[..IndexOf(member, ';')]
  {
    var m, j := key + "=" + member, IndexOf(member, ';');
    assert m[..|key| + 1 + j] == key + "=" + member[..j];
    IndexAt(m, |key| + 1 + j, ';');
  }

  lemma HeardNamed(member: string)
    ensures NamedBy(KEY + "=" + member) == [Trim(member[..IndexOf(member, ';')])]
  {
    BareMember(KEY, member);
    FirstSplits(KEY, '=', member[..IndexOf(member, ';')]);
    TrimDrops("", KEY, "");
    assert "" + KEY + "" == KEY;
  }

  /** No line break behind its first comma. */
  predicate OneLine(id: string) {
    '\n' !in id[IndexOf(id, ',')..]
  }

  lemma Reordered(key: string, x: string, y: string, other: string)
    ensures key + "=" + (x + y) + "," + other == key + "=" + x + (y + "," + other)
  {
  }

  /** The first member of a header. */
  lemma FirstSelected(own: string, after: string, id: string)
    requires StartsMember(after) && ',' !in own && Plain(id) && NamedBy(own) == [id]
    ensures Matches(BaggagePattern(id), own + after)
  {
    Embedded("", own, after, id);
    assert "" + own + after == own + after;
  }

  lemma Continued(y: string, other: string)
    requires '\n' !in y && '\n' !in other && (y != "" ==> y[0] == ',')
    ensures StartsMember(y + "," + other)
  {
  }

  /** The header of any such id selects what it says. */
  lemma HeardSelected(id: string, isolated: bool)
    requires OneLine(id)
    ensures Matches(BaggagePattern(Heard(id)), IngressBaggage(id, isolated))
  {
    var n := IndexOf(id, ',');
    var own, after := KEY + "=" + id[..n], id[n..] + "," + Flag(isolated);
    assert IngressBaggage(id, isolated) == own + after by {
      assert id == id[..n] + id[n..];
      Reordered(KEY, id[..n], id[n..], Flag(isolated));
    }
    assert StartsMember(after) by {
      FlagPlain(isolated);
      Continued(id[n..], Flag(isolated));
    }
    HeardPlain(id);
    HeardNamed(id[..n]);
    FirstSelected(own, after, Heard(id));
  }

  /**
   The exact condition: the header of an id selects that id and no other plain one if and only if the
   id has no comma, no semicolon, and no blank at either end.
   */
  lemma SelectsOneExactly(id: string, isolated: bool)
    requires OneLine(id)
    ensures (forall a :: Plain(a) ==> (Matches(BaggagePattern(a), IngressBaggage(id, isolated)) <==> a == id)) <==> Plain(id)
  {
    if Plain(id) {
      forall a | Plain(a)
        ensures Matches(BaggagePattern(a), IngressBaggage(id, isolated)) <==> a == id
      {
        IngressSelectsOne(a, id, isolated);
      }
    } else {
      HeardPlain(id);
      HeardSelected(id, isolated);
    }
  }
}
