/**
 * The message-scoring heuristic of the moderation engine, as functions of
 * the message's tokens, the set of known nicks and the configured base
 * score. Scores are exact reals: every sum and comparison below is over
 * real numbers, not over IEEE-754 doubles.
 *
 * The per-token sums are defined on the last token, so that they follow a
 * loop that walks the tokens from the first to the last.
 */
module Scoring {
  import opened Text

  /** Python's integer power `2 ** e`, as the real it is multiplied into. */
  function TwoPow(e: nat): (r: real)
    ensures r >= 1.0
  {
    if e == 0 then 1.0 else 2.0 * TwoPow(e - 1)
  }

  /** Python's float power `1.2 ** e`, as an exact real. */
  function OnePointTwoPow(e: nat): (r: real)
    ensures r >= 1.0
  {
    if e == 0 then 1.0 else 1.2 * OnePointTwoPow(e - 1)
  }

  /**
   * What one token adds on its own: 0.05 when it is upper-case, plus the
   * first that applies of 0.3 for `#FREENODE`, 0.1 for another channel-like
   * `#` token and 0.2 for `EL`.
   */
  function TokenBonus(t: string): (r: real)
    ensures !IsUpper(t) ==> r == 0.0
    ensures IsUpper(t) ==> 0.05 <= r <= 0.35
  {
    if !IsUpper(t) then 0.0
    else 0.05 + (if t == "#FREENODE" then 0.3
                 else if StartsWith(t, "#") then 0.1
                 else if t == "EL" then 0.2
                 else 0.0)
  }

  /** The sum of the per-token bonuses. */
  function UpperBonus(ts: seq<string>): (r: real)
    ensures r >= 0.0
  {
    if ts == [] then 0.0
    else UpperBonus(ts[..|ts| - 1]) + TokenBonus(ts[|ts| - 1])
  }

  /** A token names a known nick once the colons around it are stripped (`alice:`). */
  predicate IsMention(t: string, known: set<string>)
    ensures t in known && (t == [] || (t[0] != ':' && t[|t| - 1] != ':')) ==> IsMention(t, known)
  {
    if t == [] || (t[0] != ':' && t[|t| - 1] != ':') then
      StripUnbordered(t, ':');
      Strip(t, ':') in known
    else
      Strip(t, ':') in known
  }

  /** The number of tokens that mention a known nick. */
  function Mentions(ts: seq<string>, known: set<string>): (m: nat)
    ensures m <= |ts|
  {
    if ts == [] then 0
    else Mentions(ts[..|ts| - 1], known) + (if IsMention(ts[|ts| - 1], known) then 1 else 0)
  }

  /** The number of code points above 127 over all tokens. */
  function NonAscii(ts: seq<string>): (n: nat)
    ensures n == 0 <==> forall i :: 0 <= i < |ts| ==> NonAsciiChars(ts[i]) == 0
  {
    if ts == [] then 0
    else
      var init := ts[..|ts| - 1];
      assert forall i :: 0 <= i < |init| ==> init[i] == ts[i];
      NonAscii(init) + NonAsciiChars(ts[|ts| - 1])
  }

  /** The bonus for addressing several known nicks: `0.05 * 2**m`, only when m > 1. */
  function MentionBonus(m: nat): (r: real)
    ensures m <= 1 ==> r == 0.0
    ensures m > 1 ==> r >= 0.2
  {
    if m > 1 then
      assert TwoPow(m) == 4.0 * TwoPow(m - 2);
      0.05 * TwoPow(m)
    else 0.0
  }

  /** The bonus for non-ASCII text: `0.03 * 1.2**n`, only when n > 1. */
  function NonAsciiBonus(n: nat): (r: real)
    ensures n <= 1 ==> r == 0.0
    ensures n > 1 ==> r >= 0.03
  {
    if n > 1 then 0.03 * OnePointTwoPow(n) else 0.0
  }

  /**
   * The score delta of a message: the base score (`message_score`), the
   * per-token bonuses, and the two bonuses computed after the token loop.
   */
  function Score(ts: seq<string>, known: set<string>, base: real): (r: real)
    ensures r >= base
  {
    base + UpperBonus(ts) + MentionBonus(Mentions(ts, known)) + NonAsciiBonus(NonAscii(ts))
  }

  // ---------------------------------------------------------------------
  // Properties of the heuristic
  // ---------------------------------------------------------------------

  /** A message without tokens scores exactly the base score. */
  lemma ScoreOfNoTokens(known: set<string>, base: real)
    ensures Score([], known, base) == base
  {
  }

  /**
   * The per-token bonus takes one of five values, and each of the three
   * extra bonuses is earned by exactly the tokens the heuristic names.
   */
  lemma TokenBonusCases(t: string)
    ensures TokenBonus(t) == 0.0 <==> !IsUpper(t)
    ensures TokenBonus(t) == 0.35 <==> t == "#FREENODE"
    ensures TokenBonus(t) == 0.15 <==> IsUpper(t) && StartsWith(t, "#") && t != "#FREENODE"
    ensures TokenBonus(t) == 0.25 <==> t == "EL"
    ensures TokenBonus(t) == 0.05 <==> IsUpper(t) && !StartsWith(t, "#") && t != "EL"
  {
    if t == "#FREENODE" {
      assert IsCasedChar(t[1]);
    } else if t == "EL" {
      assert IsCasedChar(t[0]);
      assert !StartsWith(t, "#") by { assert t[0] == 'E'; }
    }
  }

  lemma {:induction false} UpperBonusAppend(a: seq<string>, b: seq<string>)
    ensures UpperBonus(a + b) == UpperBonus(a) + UpperBonus(b)
    decreases |b|
  {
    if b == [] {
      assert a + b == a;
    } else {
      var b' := b[..|b| - 1];
      assert (a + b)[..|a + b| - 1] == a + b';
      UpperBonusAppend(a, b');
    }
  }

  lemma {:induction false} MentionsAppend(a: seq<string>, b: seq<string>, known: set<string>)
    ensures Mentions(a + b, known) == Mentions(a, known) + Mentions(b, known)
    decreases |b|
  {
    if b == [] {
      assert a + b == a;
    } else {
      var b' := b[..|b| - 1];
      assert (a + b)[..|a + b| - 1] == a + b';
      MentionsAppend(a, b', known);
    }
  }

  lemma {:induction false} NonAsciiAppend(a: seq<string>, b: seq<string>)
    ensures NonAscii(a + b) == NonAscii(a) + NonAscii(b)
    decreases |b|
  {
    if b == [] {
      assert a + b == a;
    } else {
      var b' := b[..|b| - 1];
      assert (a + b)[..|a + b| - 1] == a + b';
      NonAsciiAppend(a, b');
    }
  }

  /**
   * The score of a message does not depend on where it is cut: moving its
   * first tokens to the end leaves the score unchanged.
   */
  lemma ScoreRotation(a: seq<string>, b: seq<string>, known: set<string>, base: real)
    ensures Score(a + b, known, base) == Score(b + a, known, base)
  {
    UpperBonusAppend(a, b);
    UpperBonusAppend(b, a);
    MentionsAppend(a, b, known);
    MentionsAppend(b, a, known);
    NonAsciiAppend(a, b);
    NonAsciiAppend(b, a);
  }

  lemma {:induction false} TwoPowMonotone(i: nat, j: nat)
    requires i <= j
    ensures TwoPow(i) <= TwoPow(j)
    decreases j
  {
    if i < j {
      TwoPowMonotone(i, j - 1);
    }
  }

  /** More mentions never earn a smaller mention bonus. */
  lemma MentionBonusMonotone(m: nat, m': nat)
    requires m <= m'
    ensures MentionBonus(m) <= MentionBonus(m')
  {
    if m > 1 {
      TwoPowMonotone(m, m');
    }
  }

  lemma {:induction false} MentionsMonotone(ts: seq<string>, known: set<string>, known': set<string>)
    requires known <= known'
    ensures Mentions(ts, known) <= Mentions(ts, known')
    decreases |ts|
  {
    if ts != [] {
      MentionsMonotone(ts[..|ts| - 1], known, known');
    }
  }

  /** Knowing more nicks never lowers the score of a message. */
  lemma ScoreMonotoneInKnown(ts: seq<string>, known: set<string>, known': set<string>, base: real)
    requires known <= known'
    ensures Score(ts, known, base) <= Score(ts, known', base)
  {
    MentionsMonotone(ts, known, known');
    MentionBonusMonotone(Mentions(ts, known), Mentions(ts, known'));
  }

  /** Extending a message by one token extends each of its three sums by that token's part. */
  lemma PrefixStep(ts: seq<string>, i: nat, known: set<string>)
    requires i < |ts|
    ensures UpperBonus(ts[..i + 1]) == UpperBonus(ts[..i]) + TokenBonus(ts[i])
    ensures Mentions(ts[..i + 1], known) == Mentions(ts[..i], known) + (if IsMention(ts[i], known) then 1 else 0)
    ensures NonAscii(ts[..i + 1]) == NonAscii(ts[..i]) + NonAsciiChars(ts[i])
  {
    assert ts[..i + 1][..i] == ts[..i];
  }

  /** A one-token message contributes exactly that token's parts. */
  lemma OneToken(t: string, known: set<string>)
    ensures UpperBonus([t]) == TokenBonus(t)
    ensures Mentions([t], known) == if IsMention(t, known) then 1 else 0
    ensures NonAscii([t]) == NonAsciiChars(t)
  {
    assert [t][..0] == [];
  }

  /** The three parts of a three-token message, token by token. */
  lemma ThreeTokens(x: string, y: string, z: string, known: set<string>)
    ensures UpperBonus([x, y, z]) == TokenBonus(x) + TokenBonus(y) + TokenBonus(z)
    ensures Mentions([x, y, z], known) == Mentions([x], known) + Mentions([y], known) + Mentions([z], known)
    ensures NonAscii([x, y, z]) == NonAsciiChars(x) + NonAsciiChars(y) + NonAsciiChars(z)
  {
    assert [x, y, z] == [x] + [y] + [z];
    UpperBonusAppend([x] + [y], [z]);
    UpperBonusAppend([x], [y]);
    MentionsAppend([x] + [y], [z], known);
    MentionsAppend([x], [y], known);
    NonAsciiAppend([x] + [y], [z]);
    NonAsciiAppend([x], [y]);
    OneToken(x, known);
    OneToken(y, known);
    OneToken(z, known);
  }

  /**
   * Shouting `#FREENODE` between two upper-case words, with the default base
   * of -0.7. The words are parameters pinned to their literals by the
   * requires: written on the literals directly, the proof exceeds the
   * solver's resource budget.
   */
  lemma ShoutingExample(hello: string, freenode: string, world: string, known: set<string>)
    requires hello == "HELLO" && freenode == "#FREENODE" && world == "WORLD"
    requires hello !in known && freenode !in known && world !in known
    ensures Score([hello, freenode, world], known, -0.7) == -0.25
  {
    ShoutedWord(hello);
    ShoutedWord(world);
    StripUnbordered(hello, ':');
    StripUnbordered(world, ':');
    TokenBonusCases(freenode);
    StripUnbordered(freenode, ':');
    assert NonAsciiChars(freenode) == 0;
    ThreeTokens(hello, freenode, world, known);
    OneToken(hello, known);
    OneToken(freenode, known);
    OneToken(world, known);
  }

  /**
   * A shouted word of capital letters that is not `EL` earns the plain
   * upper-case bonus of 0.05 and no non-ASCII count.
   */
  lemma ShoutedWord(w: string)
    requires w != [] && forall i :: 0 <= i < |w| ==> IsUpperChar(w[i])
    requires w != "EL"
    ensures TokenBonus(w) == 0.05 && NonAsciiChars(w) == 0
  {
    assert IsUpper(w) by {
      assert IsCasedChar(w[0]);
    }
    assert w != "#FREENODE" && !StartsWith(w, "#") by {
      assert w[0] != '#';
    }
    assert NonAsciiChars(w) == 0 by {
      assert forall i :: 0 <= i < |w| ==> !IsNonAscii(w[i]);
    }
  }

  /** Three addressed known nicks earn a mention bonus of 0.05 * 2**3 = 0.4. */
  lemma MentionExample()
    ensures Mentions(["alice:", "bob:", "carol:"], {"alice", "bob", "carol"}) == 3
    ensures MentionBonus(3) == 0.4
  {
    var alice, bob, carol := "alice", "bob", "carol";
    assert alice + ":" == "alice:" && bob + ":" == "bob:" && carol + ":" == "carol:";
    var known := {alice, bob, carol};
    Addressed(alice);
    Addressed(bob);
    Addressed(carol);
    ThreeTokens(alice + ":", bob + ":", carol + ":", known);
    OneToken(alice + ":", known);
    OneToken(bob + ":", known);
    OneToken(carol + ":", known);
    assert TwoPow(3) == 8.0;
  }

  /** Addressing a nick as `nick:` mentions it. */
  lemma Addressed(nick: string)
    requires nick != [] && nick[0] != ':' && nick[|nick| - 1] != ':'
    ensures Strip(nick + ":", ':') == nick
  {
    var t := nick + ":";
    assert StrippedAt(t, ':', 0, |nick|);
    StripUnique(t, ':', 0, |nick|);
    assert t[0..|nick|] == nick;
  }
}
