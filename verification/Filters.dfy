/** Pub/Sub filters: the scanner that keeps a business filter inside the isolation conjunction. */
module Filters {

  /** Where a scan stands: open brackets, and whether it is in a string or just after a backslash there. */
  datatype Scan = Scan(depth: nat, quoted: bool, escaped: bool) | Unbalanced

  const START := Scan(0, false, false)

  function Step(s: Scan, ch: char): Scan {
    if s.Unbalanced? then Unbalanced
    else if s.quoted then
      if s.escaped then s.(escaped := false)
      else if ch == '\\' then s.(escaped := true)
      else if ch == '"' then s.(quoted := false)
      else s
    else if ch == '"' then s.(quoted := true)
    else if ch == '(' then s.(depth := s.depth + 1)
    else if ch == ')' then if s.depth == 0 then Unbalanced else s.(depth := s.depth - 1)
    else s
  }

  function ScanFrom(s: Scan, text: string): Scan {
    if text == [] then s else Step(ScanFrom(s, text[..|text| - 1]), text[|text| - 1])
  }

  predicate Balanced(text: string) {
    var s := ScanFrom(START, text);
    s.Scan? && s.depth == 0 && !s.quoted
  }

  function MessageFilter(base: string, business: string): string {
    if business == "" then base else "(" + base + ") AND (" + business + ")"
  }

  method BalancedFilter(filter: string) returns (r: bool)
    ensures r == Balanced(filter)
  {
    var depth, quoted, escaped := 0, false, false;
    var i := 0;
    while i < |filter|
      invariant i <= |filter| && 0 <= depth
      invariant ScanFrom(START, filter[..i]) == Scan(depth, quoted, escaped)
    {
      var ch := filter[i];
      assert filter[..i + 1][..i] == filter[..i];
      i := i + 1;
      if quoted {
        if escaped {
          escaped := false;
          continue;
        }
        if ch == '\\' {
          escaped := true;
          continue;
        }
        if ch == '"' {
          quoted := false;
        }
        continue;
      }
      match ch
      case '"' => quoted := true;
      case '(' => depth := depth + 1;
      case ')' =>
        depth := depth - 1;
        if depth < 0 {
          StaysUnbalanced(filter, i);
          return false;
        }
      case _ =>
    }
    assert filter[..i] == filter;
    return depth == 0 && !quoted;
  }

  // ----- Scans in parts -----

  lemma {:induction false} ScanInTurn(s: Scan, a: string, b: string)
    ensures ScanFrom(s, a + b) == ScanFrom(ScanFrom(s, a), b)
  {
    if b == [] {
      assert a + b == a;
    } else {
      ScanInTurn(s, a, b[..|b| - 1]);
      assert (a + b)[..|a + b| - 1] == a + b[..|b| - 1];
    }
  }

  lemma {:induction false} UnbalancedScan(text: string)
    ensures ScanFrom(Unbalanced, text) == Unbalanced
  {
    if text != [] {
      UnbalancedScan(text[..|text| - 1]);
    }
  }

  lemma StaysUnbalanced(text: string, i: nat)
    requires i <= |text| && ScanFrom(START, text[..i]).Unbalanced?
    ensures ScanFrom(START, text).Unbalanced?
  {
    ScanInTurn(START, text[..i], text[i..]);
    assert text[..i] + text[i..] == text;
    UnbalancedScan(text[i..]);
  }

  function Deeper(s: Scan, n: nat): Scan {
    if s.Unbalanced? then Unbalanced else s.(depth := s.depth + n)
  }

  /** A text that scans on its own scans alike below n open brackets. */
  lemma {:induction false} ScanDeeper(s: Scan, text: string, n: nat)
    requires ScanFrom(s, text).Scan?
    ensures ScanFrom(Deeper(s, n), text) == Deeper(ScanFrom(s, text), n)
  {
    if text != [] {
      ScanDeeper(s, text[..|text| - 1], n);
    }
  }

  /** Behind one open bracket, the first i characters of a text leave it open. */
  predicate LeavesOpen(text: string, i: nat)
    requires i <= |text|
  {
    var s := ScanFrom(Scan(1, false, false), text[..i]);
    s.Scan? && s.depth >= 1
  }

  /** Conversely, a text that never closes an enclosing bracket scans on its own. */
  lemma {:induction false} ScanAlone(text: string)
    requires forall i :: 0 <= i <= |text| ==> LeavesOpen(text, i)
    ensures ScanFrom(START, text).Scan?
  {
    if text != [] {
      var front := text[..|text| - 1];
      forall i | 0 <= i <= |front|
        ensures LeavesOpen(front, i)
      {
        assert LeavesOpen(text, i) && front[..i] == text[..i];
      }
      ScanAlone(front);
      ScanLast(text);
    }
  }

  lemma ScanLast(text: string)
    requires text != [] && ScanFrom(START, text[..|text| - 1]).Scan? && LeavesOpen(text, |text|)
    ensures ScanFrom(START, text).Scan?
  {
    assert text[..|text|] == text;
    ScanDeeper(START, text[..|text| - 1], 1);
  }

  // ----- The enclosing conjunction -----

  const JOIN := ") AND ("

  /** Everything before the business filter, up to and including the bracket that encloses it. */
  function Prefix(base: string): string {
    "(" + base + JOIN
  }

  lemma ComposedOf(base: string, business: string)
    requires business != ""
    ensures MessageFilter(base, business) == Prefix(base) + business + ")"
    ensures |Prefix(base)| == |base| + 8
  {
  }

  lemma ScanOpen(s: Scan)
    requires s.Scan? && !s.quoted
    ensures ScanFrom(s, "(") == s.(depth := s.depth + 1)
  {
    assert "("[..0] == [];
  }

  lemma ScanClose(s: Scan)
    ensures ScanFrom(s, ")") == Step(s, ')')
  {
    assert ")"[..0] == [];
  }

  lemma ScanJoin()
    ensures ScanFrom(Scan(1, false, false), JOIN) == Scan(1, false, false)
  {
    var s := Scan(1, false, false);
    assert JOIN[..6] == ") AND " && JOIN[..5] == ") AND" && JOIN[..4] == ") AN" && JOIN[..3] == ") A" && JOIN[..2] == ") " && JOIN[..1] == ")";
    ScanClose(s);
    assert ScanFrom(s, JOIN[..1]) == START;
    assert JOIN[..2][..1] == JOIN[..1];
    assert ScanFrom(s, JOIN[..2]) == START;
    assert JOIN[..3][..2] == JOIN[..2];
    assert ScanFrom(s, JOIN[..3]) == START;
    assert JOIN[..4][..3] == JOIN[..3];
    assert ScanFrom(s, JOIN[..4]) == START;
    assert JOIN[..5][..4] == JOIN[..4];
    assert ScanFrom(s, JOIN[..5]) == START;
    assert JOIN[..6][..5] == JOIN[..5];
    assert ScanFrom(s, JOIN[..6]) == START;
  }

  /** After a balanced base, exactly the bracket before the business filter is open. */
  lemma ScanPrefix(base: string)
    requires Balanced(base)
    ensures ScanFrom(START, Prefix(base)) == Scan(1, false, false)
  {
    NeverEscapedOutside(base);
    ScanOpen(START);
    ScanInTurn(START, "(", base);
    ScanDeeper(START, base, 1);
    ScanInTurn(START, "(" + base, JOIN);
    ScanJoin();
  }

  lemma {:induction false} NeverEscapedOutside(text: string)
    ensures var s := ScanFrom(START, text); s.Scan? && !s.quoted ==> !s.escaped
  {
    if text != [] {
      NeverEscapedOutside(text[..|text| - 1]);
    }
  }

  /** The last bracket of a text closes the one that stands just before position `from`, and nothing in between does. */
  ghost predicate ClosedOnlyByLast(text: string, from: nat)
    requires 1 <= from < |text|
  {
    var outside := ScanFrom(START, text[..from - 1]);
    && outside.Scan? && !outside.quoted && text[from - 1] == '('
    && (forall k :: from <= k < |text| ==>
          ScanFrom(START, text[..k]).Scan? && ScanFrom(START, text[..k]).depth > outside.depth)
    && ScanFrom(START, text) == outside
  }

  lemma OutsidePrefix(base: string)
    requires Balanced(base)
    ensures ScanFrom(START, Prefix(base)[..|base| + 7]) == START
  {
    var p := Prefix(base);
    ScanPrefix(base);
    assert p == p[..|base| + 7] + "(";
    ScanInTurn(START, p[..|base| + 7], "(");
    var s := ScanFrom(START, p[..|base| + 7]);
    assert "("[..0] == [];
    NeverEscapedOutside(p[..|base| + 7]);
  }

  lemma ScanInside(base: string, business: string, i: nat)
    requires Balanced(base) && business != "" && i <= |business|
    ensures var f := MessageFilter(base, business);
            |base| + 8 + i < |f| && ScanFrom(START, f[..|base| + 8 + i]) == ScanFrom(Scan(1, false, false), business[..i])
  {
    ComposedOf(base, business);
    var f := MessageFilter(base, business);
    assert f[..|base| + 8 + i] == Prefix(base) + business[..i];
    ScanInTurn(START, Prefix(base), business[..i]);
    ScanPrefix(base);
  }

  lemma ScanWhole(base: string, business: string)
    requires Balanced(base) && business != ""
    ensures ScanFrom(START, MessageFilter(base, business)) == Step(ScanFrom(Scan(1, false, false), business), ')')
  {
    ComposedOf(base, business);
    ScanPrefix(base);
    ScanInTurn(START, Prefix(base), business);
    ScanInTurn(START, Prefix(base) + business, ")");
    ScanClose(ScanFrom(Scan(1, false, false), business));
  }

  /** Two balanced filters compose to a balanced one. */
  lemma ComposedBalanced(base: string, business: string)
    requires Balanced(base) && Balanced(business)
    ensures Balanced(MessageFilter(base, business))
  {
    if business != "" {
      ScanWhole(base, business);
      ScanDeeper(START, business, 1);
      NeverEscapedOutside(business);
    }
  }

  lemma {:induction false} BalancedPrefixes(text: string, i: nat)
    requires i <= |text| && ScanFrom(START, text).Scan?
    ensures ScanFrom(START, text[..i]).Scan?
  {
    if ScanFrom(START, text[..i]).Unbalanced? {
      StaysUnbalanced(text, i);
    }
  }

  /** An accepted business filter stays inside its bracket. */
  lemma BalancedIsEnclosed(base: string, business: string)
    requires Balanced(base) && business != "" && Balanced(business)
    ensures |base| + 8 < |MessageFilter(base, business)|
    ensures ClosedOnlyByLast(MessageFilter(base, business), |base| + 8)
  {
    var f, from := MessageFilter(base, business), |base| + 8;
    ComposedOf(base, business);
    assert f[..from - 1] == Prefix(base)[..|base| + 7];
    OutsidePrefix(base);
    forall k | from <= k < |f|
      ensures ScanFrom(START, f[..k]).Scan? && ScanFrom(START, f[..k]).depth > 0
    {
      ScanInside(base, business, k - from);
      BalancedPrefixes(business, k - from);
      ScanDeeper(START, business[..k - from], 1);
    }
    ScanWhole(base, business);
    ScanDeeper(START, business, 1);
    NeverEscapedOutside(business);
  }

  /** A business filter that stays inside its bracket is an accepted one. */
  lemma EnclosedIsBalanced(base: string, business: string)
    requires Balanced(base) && business != "" && |base| + 8 < |MessageFilter(base, business)|
    requires ClosedOnlyByLast(MessageFilter(base, business), |base| + 8)
    ensures Balanced(business)
  {
    var f, from := MessageFilter(base, business), |base| + 8;
    ComposedOf(base, business);
    assert f[..from - 1] == Prefix(base)[..|base| + 7];
    OutsidePrefix(base);
    forall i | 0 <= i <= |business|
      ensures LeavesOpen(business, i)
    {
      ScanInside(base, business, i);
      assert ScanFrom(START, f[..from + i]).depth > 0;
    }
    ScanAlone(business);
    ScanWhole(base, business);
    ScanDeeper(START, business, 1);
  }

  /**
   Behind a balanced base, the bracket that encloses a business filter is closed by the final character
   and by nothing before it exactly when the scanner accepts the business filter, quotes and escapes
   included: no accepted filter leaves the conjunction, and none that would is accepted.
   */
  lemma EnclosedExactly(base: string, business: string)
    requires Balanced(base) && business != ""
    ensures |base| + 8 < |MessageFilter(base, business)|
    ensures ClosedOnlyByLast(MessageFilter(base, business), |base| + 8) <==> Balanced(business)
  {
    ComposedOf(base, business);
    if Balanced(business) {
      BalancedIsEnclosed(base, business);
    } else if ClosedOnlyByLast(MessageFilter(base, business), |base| + 8) {
      EnclosedIsBalanced(base, business);
    }
  }

  // ----- What the scanner accepts, without the scanner -----

  /** A character of a string literal: a bare one, or any behind a backslash. */
  datatype Item = Bare(ch: char) | Escaped(ch: char)

  /** Filter text as read: characters, string literals, and bracketed text. */
  datatype Text =
    | End
    | Plain(ch: char, rest: Text)
    | Literal(items: seq<Item>, rest: Text)
    | Group(inner: Text, rest: Text)

  predicate WellFormedItem(i: Item) {
    i.Bare? ==> i.ch != '"' && i.ch != '\\'
  }

  predicate WellFormed(t: Text) {
    match t
    case End => true
    case Plain(ch, rest) => ch != '"' && ch != '(' && ch != ')' && WellFormed(rest)
    case Literal(items, rest) => (forall i :: i in items ==> WellFormedItem(i)) && WellFormed(rest)
    case Group(inner, rest) => WellFormed(inner) && WellFormed(rest)
  }

  function RenderItem(i: Item): string {
    if i.Bare? then [i.ch] else ['\\', i.ch]
  }

  function RenderItems(items: seq<Item>): string {
    if items == [] then "" else RenderItem(items[0]) + RenderItems(items[1..])
  }

  function Render(t: Text): string {
    match t
    case End => ""
    case Plain(ch, rest) => [ch] + Render(rest)
    case Literal(items, rest) => "\"" + RenderItems(items) + "\"" + Render(rest)
    case Group(inner, rest) => "(" + Render(inner) + ")" + Render(rest)
  }

  predicate Reads(text: string, t: Text) {
    WellFormed(t) && Render(t) == text
  }

  lemma ScanOne(s: Scan, ch: char)
    ensures ScanFrom(s, [ch]) == Step(s, ch)
  {
    assert [ch][..0] == [];
  }

  lemma ScanFirst(s: Scan, ch: char, text: string)
    ensures ScanFrom(s, [ch] + text) == ScanFrom(Step(s, ch), text)
  {
    ScanInTurn(s, [ch], text);
    ScanOne(s, ch);
  }

  lemma ItemScan(i: Item, depth: nat)
    requires WellFormedItem(i)
    ensures ScanFrom(Scan(depth, true, false), RenderItem(i)) == Scan(depth, true, false)
  {
    var s := Scan(depth, true, false);
    if i.Bare? {
      ScanOne(s, i.ch);
    } else {
      assert ['\\', i.ch] == ['\\'] + [i.ch];
      ScanFirst(s, '\\', [i.ch]);
      ScanOne(s.(escaped := true), i.ch);
    }
  }

  lemma {:induction false} ItemsScan(items: seq<Item>, depth: nat)
    requires forall i :: i in items ==> WellFormedItem(i)
    ensures ScanFrom(Scan(depth, true, false), RenderItems(items)) == Scan(depth, true, false)
  {
    if items != [] {
      ItemScan(items[0], depth);
      ItemsScan(items[1..], depth);
      ScanInTurn(Scan(depth, true, false), RenderItem(items[0]), RenderItems(items[1..]));
    }
  }

  /** What is opened, left alone and closed leaves a scan where it was. */
  lemma ScanWrapped(s: Scan, within: Scan, open: char, body: string, close: char, rest: string)
    requires Step(s, open) == within && ScanFrom(within, body) == within && Step(within, close) == s
    ensures ScanFrom(s, [open] + body + [close] + rest) == ScanFrom(s, rest)
  {
    assert [open] + body + [close] + rest == [open] + (body + ([close] + rest));
    ScanFirst(s, open, body + ([close] + rest));
    ScanInTurn(within, body, [close] + rest);
    ScanFirst(within, close, rest);
  }

  /** Rendered text leaves the scanner where it was. */
  lemma {:induction false} RenderedScan(t: Text, depth: nat)
    requires WellFormed(t)
    ensures ScanFrom(Scan(depth, false, false), Render(t)) == Scan(depth, false, false)
  {
    var s := Scan(depth, false, false);
    match t
    case End =>
    case Plain(ch, rest) =>
      RenderedScan(rest, depth);
      ScanFirst(s, ch, Render(rest));
    case Literal(items, rest) =>
      RenderedScan(rest, depth);
      ItemsScan(items, depth);
      ScanWrapped(s, s.(quoted := true), '"', RenderItems(items), '"', Render(rest));
    case Group(inner, rest) =>
      RenderedScan(rest, depth);
      RenderedScan(inner, depth + 1);
      ScanWrapped(s, s.(depth := depth + 1), '(', Render(inner), ')', Render(rest));
  }

  /** Readings one after the other, each closed by a bracket that the one before it did not open. */
  function RenderAll(ts: seq<Text>): string
    requires ts != []
  {
    if |ts| == 1 then Render(ts[0]) else Render(ts[0]) + ")" + RenderAll(ts[1..])
  }

  lemma RenderAllFirst(ts: seq<Text>, t: Text, before: string)
    requires ts != [] && Render(t) == before + Render(ts[0])
    ensures RenderAll([t] + ts[1..]) == before + RenderAll(ts)
  {
    assert ([t] + ts[1..])[1..] == ts[1..];
    if |ts| > 1 {
      assert before + Render(ts[0]) + ")" + RenderAll(ts[1..]) == before + (Render(ts[0]) + ")" + RenderAll(ts[1..]));
    }
  }

  /** From here the scanner accepts. */
  predicate Accepted(s: Scan, text: string) {
    var r := ScanFrom(s, text);
    r.Scan? && r.depth == 0 && !r.quoted
  }

  lemma AcceptedFirst(s: Scan, text: string)
    requires text != "" && Accepted(s, text)
    ensures text == [text[0]] + text[1..] && Accepted(Step(s, text[0]), text[1..]) && Step(s, text[0]).Scan?
  {
    assert text == [text[0]] + text[1..];
    ScanFirst(s, text[0], text[1..]);
    if Step(s, text[0]).Unbalanced? {
      UnbalancedScan(text[1..]);
    }
  }

  /** A string literal that is closed somewhere can be read up to there. */
  lemma {:induction false} ReadItems(text: string, depth: nat) returns (items: seq<Item>, after: string)
    requires Accepted(Scan(depth, true, false), text)
    ensures (forall i :: i in items ==> WellFormedItem(i)) && text == RenderItems(items) + "\"" + after
    ensures Accepted(Scan(depth, false, false), after)
    decreases |text|
  {
    AcceptedFirst(Scan(depth, true, false), text);
    if text[0] == '"' {
      items, after := [], text[1..];
    } else if text[0] == '\\' {
      AcceptedFirst(Scan(depth, true, true), text[1..]);
      items, after := ReadItems(text[2..], depth);
      items := [Escaped(text[1])] + items;
    } else {
      items, after := ReadItems(text[1..], depth);
      items := [Bare(text[0])] + items;
    }
  }

  /** The first reading goes into brackets that the second follows. */
  lemma ReadGroup(ts: seq<Text>) returns (more: seq<Text>)
    requires |ts| >= 2 && forall t :: t in ts ==> WellFormed(t)
    ensures |more| == |ts| - 1 && RenderAll(more) == "(" + RenderAll(ts) && forall t :: t in more ==> WellFormed(t)
  {
    var group := Group(ts[0], ts[1]);
    RenderAllFirst(ts[1..], group, "(" + Render(ts[0]) + ")");
    more := [group] + ts[1..][1..];
    assert "(" + Render(ts[0]) + ")" + RenderAll(ts[1..]) == "(" + (Render(ts[0]) + ")" + RenderAll(ts[1..]));
  }

  lemma ReadClose(ts: seq<Text>) returns (more: seq<Text>)
    requires ts != [] && forall t :: t in ts ==> WellFormed(t)
    ensures |more| == |ts| + 1 && RenderAll(more) == [')'] + RenderAll(ts) && forall t :: t in more ==> WellFormed(t)
  {
    more := [End] + ts;
    assert more[1..] == ts;
  }

  lemma ReadInto(ts: seq<Text>, t: Text, before: string) returns (more: seq<Text>)
    requires ts != [] && (forall u :: u in ts ==> WellFormed(u)) && WellFormed(t) && Render(t) == before + Render(ts[0])
    ensures |more| == |ts| && RenderAll(more) == before + RenderAll(ts) && forall u :: u in more ==> WellFormed(u)
  {
    RenderAllFirst(ts, t, before);
    more := [t] + ts[1..];
  }

  /** Text that the scanner accepts below some open brackets falls into readings, one for each of them and one more. */
  lemma {:induction false} ReadAll(text: string, depth: nat) returns (ts: seq<Text>)
    requires Accepted(Scan(depth, false, false), text)
    ensures |ts| == depth + 1 && RenderAll(ts) == text && forall t :: t in ts ==> WellFormed(t)
    decreases |text|
  {
    if text == "" {
      ts := [End];
    } else {
      var ch, rest := text[0], text[1..];
      AcceptedFirst(Scan(depth, false, false), text);
      if ch == '(' {
        ts := ReadAll(rest, depth + 1);
        ts := ReadGroup(ts);
      } else if ch == ')' {
        ts := ReadAll(rest, depth - 1);
        ts := ReadClose(ts);
      } else if ch == '"' {
        ts := ReadLiteral(rest, depth);
      } else {
        ts := ReadAll(rest, depth);
        ts := ReadInto(ts, Plain(ch, ts[0]), [ch]);
      }
    }
  }

  lemma {:induction false} ReadLiteral(text: string, depth: nat) returns (ts: seq<Text>)
    requires Accepted(Scan(depth, true, false), text)
    ensures |ts| == depth + 1 && RenderAll(ts) == "\"" + text && forall t :: t in ts ==> WellFormed(t)
    decreases |text|
  {
    var items, after := ReadItems(text, depth);
    ts := ReadAll(after, depth);
    ts := ReadInto(ts, Literal(items, ts[0]), "\"" + RenderItems(items) + "\"");
    assert "\"" + RenderItems(items) + "\"" + after == "\"" + (RenderItems(items) + "\"" + after);
  }

  /**
   The scanner accepts exactly the filters that can be read: every bracket outside a string literal has
   its partner, and every literal, in which a backslash protects the character behind it, is closed.
   */
  lemma BalancedExactly(text: string)
    ensures Balanced(text) <==> exists t :: Reads(text, t)
  {
    if Balanced(text) {
      var ts := ReadAll(text, 0);
      assert Reads(text, ts[0]);
    }
    if t :| Reads(text, t) {
      RenderedScan(t, 0);
    }
  }

  // ----- One reading -----

  /** Nothing, or a bracket that closes what is open before. */
  predicate Closes(after: string) {
    after == "" || after[0] == ')'
  }

  lemma ItemFirst(a: seq<Item>, x: string)
    requires a != []
    ensures RenderItems(a) + "\"" + x == RenderItem(a[0]) + (RenderItems(a[1..]) + "\"" + x)
  {
  }

  /** Only a literal without items starts with its closing quote. */
  lemma FirstItem(a: seq<Item>, x: string)
    requires forall i :: i in a ==> WellFormedItem(i)
    ensures (RenderItems(a) + "\"" + x)[0] == '"' <==> a == []
  {
    if a != [] {
      assert a[0] in a;
      ItemFirst(a, x);
    }
  }

  lemma ItemOnce(i: Item, j: Item, x: string, y: string)
    requires WellFormedItem(i) && WellFormedItem(j) && RenderItem(i) + x == RenderItem(j) + y
    ensures i == j && x == y
  {
    var s, t := RenderItem(i) + x, RenderItem(j) + y;
    assert s[0] == RenderItem(i)[0] && t[0] == RenderItem(j)[0];
    assert i.Bare? == j.Bare?;
    var n := |RenderItem(i)|;
    assert s[n - 1] == i.ch && t[n - 1] == j.ch;
    assert s[n..] == x && t[n..] == y;
  }

  lemma {:induction false} ItemsOnce(a: seq<Item>, b: seq<Item>, x: string, y: string)
    requires (forall i :: i in a ==> WellFormedItem(i)) && (forall i :: i in b ==> WellFormedItem(i))
    requires RenderItems(a) + "\"" + x == RenderItems(b) + "\"" + y
    ensures a == b && x == y
  {
    FirstItem(a, x);
    FirstItem(b, y);
    if a != [] {
      assert a[0] in a && b[0] in b;
      ItemFirst(a, x);
      ItemFirst(b, y);
      ItemOnce(a[0], b[0], RenderItems(a[1..]) + "\"" + x, RenderItems(b[1..]) + "\"" + y);
      ItemsOnce(a[1..], b[1..], x, y);
    } else {
      assert RenderItems(a) + "\"" + x == "\"" + x && RenderItems(b) + "\"" + y == "\"" + y;
      assert ("\"" + x)[1..] == x && ("\"" + y)[1..] == y;
    }
  }

  lemma SameTail(ch: char, a: string, b: string)
    requires [ch] + a == [ch] + b
    ensures a == b
  {
    assert ([ch] + a)[1..] == a && ([ch] + b)[1..] == b;
  }

  lemma Wrapped(open: string, body: string, close: string, rest: string, x: string)
    ensures open + body + close + rest + x == open + (body + close + (rest + x)) == open + (body + (close + (rest + x)))
  {
  }

  /** The first character tells what is read first, and the rest follows it. */
  lemma Opening(t: Text, x: string)
    requires WellFormed(t) && Closes(x)
    ensures var s := Render(t) + x;
            && (t.End? <==> Closes(s))
            && (t.Plain? ==> s == [t.ch] + (Render(t.rest) + x))
            && (t.Literal? ==> s == ['"'] + (RenderItems(t.items) + "\"" + (Render(t.rest) + x)))
            && (t.Group? ==> s == ['('] + (Render(t.inner) + (")" + (Render(t.rest) + x))))
  {
    match t
    case End => assert Render(t) + x == x;
    case Plain(ch, rest) => assert [ch] + Render(rest) + x == [ch] + (Render(rest) + x);
    case Literal(items, rest) => Wrapped("\"", RenderItems(items), "\"", Render(rest), x);
    case Group(inner, rest) => Wrapped("(", Render(inner), ")", Render(rest), x);
  }

  /** Behind what is read comes nothing, or the bracket that closes what is open before. */
  lemma {:induction false} ReadOnce(t: Text, u: Text, x: string, y: string)
    requires WellFormed(t) && WellFormed(u) && Closes(x) && Closes(y) && Render(t) + x == Render(u) + y
    ensures t == u && x == y
  {
    var s := Render(t) + x;
    Opening(t, x);
    Opening(u, y);
    match t
    case End =>
      assert Render(End) + x == x && Render(End) + y == y;
    case Plain(ch, rest) =>
      assert s[0] == ch;
      SameTail(ch, Render(rest) + x, Render(u.rest) + y);
      ReadOnce(rest, u.rest, x, y);
    case Literal(items, rest) =>
      assert s[0] == '"';
      SameTail('"', RenderItems(items) + "\"" + (Render(rest) + x), RenderItems(u.items) + "\"" + (Render(u.rest) + y));
      ItemsOnce(items, u.items, Render(rest) + x, Render(u.rest) + y);
      ReadOnce(rest, u.rest, x, y);
    case Group(inner, rest) =>
      assert s[0] == '(';
      SameTail('(', Render(inner) + (")" + (Render(rest) + x)), Render(u.inner) + (")" + (Render(u.rest) + y)));
      ReadOnce(inner, u.inner, ")" + (Render(rest) + x), ")" + (Render(u.rest) + y));
      SameTail(')', Render(rest) + x, Render(u.rest) + y);
      ReadOnce(rest, u.rest, x, y);
  }

  /** A text has at most one reading. */
  lemma OneReading(text: string, t: Text, u: Text)
    requires Reads(text, t) && Reads(text, u)
    ensures t == u
  {
    assert text + "" == text;
    ReadOnce(t, u, "", "");
  }

  // ----- The conjunction as read -----

  /** Characters and then more text. */
  function Chars(chars: string, rest: Text): Text {
    if chars == "" then rest else Plain(chars[0], Chars(chars[1..], rest))
  }

  lemma {:induction false} CharsText(chars: string, rest: Text)
    requires '"' !in chars && '(' !in chars && ')' !in chars
    ensures Render(Chars(chars, rest)) == chars + Render(rest) && (WellFormed(Chars(chars, rest)) <==> WellFormed(rest))
  {
    if chars == "" {
      assert chars + Render(rest) == Render(rest);
    } else {
      CharsText(chars[1..], rest);
      assert chars[0] in chars && chars == [chars[0]] + chars[1..];
    }
  }

  /** Two bracketed readings and nothing besides. */
  function Conjunction(base: Text, business: Text): Text {
    Group(base, Chars(" AND ", Group(business, End)))
  }

  lemma Joining(base: string, business: string)
    ensures "(" + base + ")" + (" AND " + ("(" + business + ")" + "")) == "(" + base + ") AND (" + business + ")"
  {
  }

  lemma ConjunctionText(base: Text, business: Text)
    ensures Render(Conjunction(base, business)) == "(" + Render(base) + ") AND (" + Render(business) + ")"
    ensures WellFormed(Conjunction(base, business)) <==> WellFormed(base) && WellFormed(business)
  {
    CharsText(" AND ", Group(business, End));
    Joining(Render(base), Render(business));
  }

  /**
   Behind a balanced base, the scanner accepts a business filter exactly when the composed filter is
   read as the conjunction of the two: the base in one pair of brackets, and the whole business filter,
   as it reads on its own, in the other.
   */
  lemma ReadAsConjunction(base: string, business: string)
    requires Balanced(base) && business != ""
    ensures Balanced(business) <==>
              exists b, t :: Reads(base, b) && Reads(business, t) && Reads(MessageFilter(base, business), Conjunction(b, t))
  {
    BalancedExactly(base);
    BalancedExactly(business);
    if Balanced(business) {
      var b, t :| Reads(base, b) && Reads(business, t);
      ConjunctionText(b, t);
      assert Reads(MessageFilter(base, business), Conjunction(b, t));
    }
  }
}
