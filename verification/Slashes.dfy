/** Texts divided by slashes: resource names and pointers. */
module Slashes {

  /** The parts between slashes, at least one. */
  function Parts(s: string): (r: seq<string>)
    ensures r != [] && ('/' in s ==> |r| >= 2)
  {
    if s == [] then [""] else
      var front, last := Parts(s[..|s| - 1]), s[|s| - 1];
      assert s == s[..|s| - 1] + [last];
      if last == '/' then front + [""] else front[|front| - 1 := front[|front| - 1] + [last]]
  }

  function Join(parts: seq<string>): string
    requires parts != []
  {
    if |parts| == 1 then parts[0] else Join(parts[..|parts| - 1]) + "/" + parts[|parts| - 1]
  }

  predicate SlashFree(parts: seq<string>) {
    forall i :: 0 <= i < |parts| ==> '/' !in parts[i]
  }

  lemma {:induction false} WholePart(s: string)
    requires '/' !in s
    ensures Parts(s) == [s]
  {
    if s != [] {
      WholePart(s[..|s| - 1]);
      assert s == s[..|s| - 1] + [s[|s| - 1]];
    }
  }

  lemma {:induction false} OnePartMore(s: string, t: string)
    requires '/' !in t
    ensures Parts(s + "/" + t) == Parts(s) + [t]
  {
    var whole := s + "/" + t;
    if t == "" {
      assert whole[..|whole| - 1] == s;
    } else {
      assert whole[..|whole| - 1] == s + "/" + t[..|t| - 1];
      OnePartMore(s, t[..|t| - 1]);
      assert t == t[..|t| - 1] + [t[|t| - 1]];
    }
  }

  /** Slash-free parts come back from their join. */
  lemma {:induction false} JoinThenParts(parts: seq<string>)
    requires parts != [] && SlashFree(parts)
    ensures Parts(Join(parts)) == parts
  {
    var front, last := parts[..|parts| - 1], parts[|parts| - 1];
    assert parts == front + [last];
    if front == [] {
      WholePart(last);
    } else {
      JoinThenParts(front);
      OnePartMore(Join(front), last);
    }
  }

  lemma {:induction false} PartsSlashFree(s: string)
    ensures SlashFree(Parts(s))
  {
    if s != [] {
      PartsSlashFree(s[..|s| - 1]);
    }
  }

  /** A text is the join of its parts. */
  lemma {:induction false} PartsThenJoin(s: string)
    ensures Join(Parts(s)) == s
  {
    if s != [] {
      var front, last := s[..|s| - 1], s[|s| - 1];
      assert s == front + [last];
      PartsThenJoin(front);
      var before, after := Parts(front), Parts(s);
      if last == '/' {
        assert after[..|after| - 1] == before;
      } else {
        assert after[..|after| - 1] == before[..|before| - 1];
        if |before| > 1 {
          assert Join(after) == Join(before) + [last];
        }
      }
    }
  }
}
