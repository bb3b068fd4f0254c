/**
 * Consequences of the token shape for a whole run of tokens: rendering the
 * tokens one after another with ToString puts a newline exactly where a
 * Newline token stands, so no other token spans two lines.
 */
module TokenSequences {
  import opened TextRanges
  import opened Tokens

  /** The tokens' strings, concatenated in order. */
  function Render(ts: seq<Token>): string {
    if ts == [] then "" else ToString(ts[0]) + Render(ts[1..])
  }

  /** How many of the tokens are Newline tokens. */
  function NewlineTokenCount(ts: seq<Token>): nat {
    if ts == [] then 0
    else (if ts[0].kind == Newline then 1 else 0) + NewlineTokenCount(ts[1..])
  }

  /** How many times character `c` occurs in `s`. */
  function Occurrences(s: string, c: char): nat {
    if s == [] then 0 else (if s[0] == c then 1 else 0) + Occurrences(s[1..], c)
  }

  /** Occurrences add up over concatenation. */
  lemma {:induction false} OccurrencesAppend(a: string, b: string, c: char)
    ensures Occurrences(a + b, c) == Occurrences(a, c) + Occurrences(b, c)
    decreases |a|
  {
    if a == [] {
      assert a + b == b;
    } else {
      assert (a + b)[1..] == a[1..] + b;
      OccurrencesAppend(a[1..], b, c);
    }
  }

  /** A character that does not occur in `s` is counted zero times. */
  lemma {:induction false} OccurrencesAbsent(s: string, c: char)
    requires c !in s
    ensures Occurrences(s, c) == 0
    decreases |s|
  {
    if s != [] {
      assert c !in s[1..];
      OccurrencesAbsent(s[1..], c);
    }
  }

  /** Every token in the run is well formed. */
  predicate AllWellFormed(ts: seq<Token>) {
    forall i :: 0 <= i < |ts| ==> WellFormed(ts[i])
  }

  /** Rendering distributes over concatenation of token runs. */
  lemma {:induction false} RenderAppend(a: seq<Token>, b: seq<Token>)
    ensures Render(a + b) == Render(a) + Render(b)
    decreases |a|
  {
    if a == [] {
      assert a + b == b;
    } else {
      assert (a + b)[1..] == a[1..] + b;
      RenderAppend(a[1..], b);
    }
  }

  /**
   * The rendered text of well-formed tokens holds exactly one newline
   * character per Newline token.
   */
  lemma {:induction false} RenderNewlineCount(ts: seq<Token>)
    requires AllWellFormed(ts)
    ensures Occurrences(Render(ts), '\n') == NewlineTokenCount(ts)
    decreases |ts|
  {
    if ts != [] {
      var s := ToString(ts[0]);
      if ts[0].kind == Newline {
        assert s == ['\n'] && s[1..] == [];
      } else {
        OccurrencesAbsent(s, '\n');
      }
      assert AllWellFormed(ts[1..]) by {
        forall i | 0 <= i < |ts[1..]|
          ensures WellFormed(ts[1..][i])
        {
          assert ts[1..][i] == ts[i + 1];
        }
      }
      RenderNewlineCount(ts[1..]);
      OccurrencesAppend(s, Render(ts[1..]), '\n');
    }
  }

  /** Well-formed tokens with no Newline among them render without a newline. */
  lemma {:induction false} RenderWithoutNewlineTokens(ts: seq<Token>)
    requires AllWellFormed(ts)
    requires forall i :: 0 <= i < |ts| ==> ts[i].kind != Newline
    ensures '\n' !in Render(ts)
    decreases |ts|
  {
    if ts != [] {
      assert forall i :: 0 <= i < |ts[1..]| ==> ts[1..][i] == ts[i + 1];
      RenderWithoutNewlineTokens(ts[1..]);
    }
  }

  /**
   * Splitting a run of well-formed tokens at its first Newline token splits
   * the rendered text at its first newline: the text before that newline is
   * exactly what the tokens before the Newline token render to.
   */
  lemma FirstLineOfRender(before: seq<Token>, nl: Token, after: seq<Token>)
    requires AllWellFormed(before)
    requires forall i :: 0 <= i < |before| ==> before[i].kind != Newline
    requires nl.kind == Newline
    ensures Render(before + [nl] + after) == Render(before) + ['\n'] + Render(after)
    ensures '\n' !in Render(before)
  {
    RenderAppend(before + [nl], after);
    RenderAppend(before, [nl]);
    assert Render([nl]) == "\n" by {
      assert [nl][1..] == [];
    }
    RenderWithoutNewlineTokens(before);
  }
}
