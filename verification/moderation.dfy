/**
 * The policy half of the moderation engine: its configuration, how a
 * message's score delta turns into a stored score and a removal decision,
 * the ranking behind `!show_scores`, and the table of admin commands.
 */
module Moderation {
  import opened Wrappers

  // ---------------------------------------------------------------------
  // Configuration
  // ---------------------------------------------------------------------

  /** The optional keys of the configuration file that the engine reads. */
  datatype Options = Options(
    adminUsers: Option<seq<string>>,
    defaultScore: Option<real>,
    messageScore: Option<real>,
    minimumScore: Option<real>,
    removalScore: Option<real>)

  /** The score thresholds, fixed at start-up. */
  datatype Config = Config(
    defaultScore: real,    // the seed of a nick's first entry
    messageScore: real,    // the base delta of every message
    minimumScore: real,    // the floor of a stored score
    removalScore: real)    // the score at which a nick is kicked

  const DefaultScore: real := -0.5
  const MessageScore: real := -0.7
  const MinimumScore: real := -100.0
  const RemovalScore: real := 0.0

  /** The configuration with every missing key replaced by its default. */
  function Configure(o: Options): (c: Config)
    ensures o.defaultScore == Some(c.defaultScore) || (o.defaultScore == None && c.defaultScore == -0.5)
    ensures o.messageScore == Some(c.messageScore) || (o.messageScore == None && c.messageScore == -0.7)
    ensures o.minimumScore == Some(c.minimumScore) || (o.minimumScore == None && c.minimumScore == -100.0)
    ensures o.removalScore == Some(c.removalScore) || (o.removalScore == None && c.removalScore == 0.0)
  {
    Config(o.defaultScore.GetOr(DefaultScore), o.messageScore.GetOr(MessageScore),
           o.minimumScore.GetOr(MinimumScore), o.removalScore.GetOr(RemovalScore))
  }

  // ---------------------------------------------------------------------
  // Score store
  // ---------------------------------------------------------------------

  function Max(a: real, b: real): real { if a >= b then a else b }

  /** Writing a key twice leaves only the second write. */
  lemma UpdateTwice(m: map<string, real>, k: string, a: real, b: real)
    ensures m[k := a][k := b] == m[k := b]
  {
  }

  /** Writing back a key's own value changes nothing. */
  lemma UpdateSame(m: map<string, real>, k: string)
    requires k in m
    ensures m[k := m[k]] == m
  {
  }

  /** The entry `setdefault` leaves for `nick`: its stored score, or the seed. */
  function Seed(scores: map<string, real>, nick: string, cfg: Config): (r: real)
    ensures nick in scores ==> r == scores[nick]
    ensures nick !in scores ==> r == cfg.defaultScore
  {
    if nick in scores then scores[nick] else cfg.defaultScore
  }

  /**
   * The score stored once a message has brought the entry to `total`: the
   * floor applies only below the removal threshold.
   */
  function Settle(total: real, cfg: Config): (r: real)
    ensures r >= total
    ensures total >= cfg.removalScore ==> r == total
    ensures total < cfg.removalScore ==> r >= cfg.minimumScore && (r == total || r == cfg.minimumScore)
  {
    if total >= cfg.removalScore then total else Max(cfg.minimumScore, total)
  }

  /** The score map after a message from `nick` whose score delta is `delta`. */
  function Rescored(scores: map<string, real>, nick: string, delta: real, cfg: Config): (r: map<string, real>)
    ensures r.Keys == scores.Keys + {nick}
    ensures forall u :: u in scores && u != nick ==> r[u] == scores[u]
  {
    scores[nick := Settle(Seed(scores, nick, cfg) + delta, cfg)]
  }

  /**
   * Whether a message that brought `nick`'s entry to `total` in `channel`
   * gets `nick` kicked. A private message arrives with the sender's own nick
   * as its channel, so `channel == nick` marks a private message.
   */
  predicate KickDue(nick: string, channel: string, admins: set<string>, total: real, cfg: Config)
    ensures KickDue(nick, channel, admins, total, cfg) ==> total >= cfg.removalScore && nick !in admins
  {
    total >= cfg.removalScore && nick !in admins + {channel}
  }

  /**
   * Every stored score is at or above the floor, unless it is at or above
   * the removal threshold (the kick branch does not apply the floor).
   */
  ghost predicate Floored(scores: map<string, real>, cfg: Config)
  {
    forall u :: u in scores ==> scores[u] >= cfg.minimumScore || scores[u] >= cfg.removalScore
  }

  /** A nick that sends its first message starts from the seed. */
  lemma FirstMessageSeeded(scores: map<string, real>, nick: string, delta: real, cfg: Config)
    requires nick !in scores
    ensures Rescored(scores, nick, delta, cfg)[nick] == Settle(cfg.defaultScore + delta, cfg)
  {
  }

  /** Below the removal threshold the stored score is the total, raised to the floor. */
  lemma BelowRemovalFloored(scores: map<string, real>, nick: string, delta: real, cfg: Config)
    requires Seed(scores, nick, cfg) + delta < cfg.removalScore
    ensures var stored := Rescored(scores, nick, delta, cfg)[nick];
      stored >= cfg.minimumScore && stored == Max(cfg.minimumScore, Seed(scores, nick, cfg) + delta)
  {
  }

  /** At or above the removal threshold the total is stored as it is, even below the floor. */
  lemma AtRemovalUnclamped(scores: map<string, real>, nick: string, delta: real, cfg: Config)
    requires Seed(scores, nick, cfg) + delta >= cfg.removalScore
    ensures Rescored(scores, nick, delta, cfg)[nick] == Seed(scores, nick, cfg) + delta
  {
  }

  /** A kick happens exactly for a non-admin at or above the threshold, in a channel. */
  lemma KickDueExactly(nick: string, channel: string, admins: set<string>, total: real, cfg: Config)
    ensures KickDue(nick, channel, admins, total, cfg)
        <==> total >= cfg.removalScore && nick !in admins && channel != nick
  {
  }

  /** Scoring a message keeps every entry floored. */
  lemma RescoredFloored(scores: map<string, real>, nick: string, delta: real, cfg: Config)
    requires Floored(scores, cfg)
    ensures Floored(Rescored(scores, nick, delta, cfg), cfg)
  {
  }

  /** With the threshold at or above the floor (as with the defaults), no entry is below the floor. */
  lemma FlooredAboveMinimum(scores: map<string, real>, cfg: Config)
    requires Floored(scores, cfg) && cfg.minimumScore <= cfg.removalScore
    ensures forall u :: u in scores ==> scores[u] >= cfg.minimumScore
  {
  }

  /**
   * With the default thresholds, a sender without an entry whose message
   * scores -0.25 is stored at -0.5 - 0.25 = -0.75 and is not kicked.
   */
  lemma NewSenderExample(nick: string, channel: string, admins: set<string>)
    ensures var cfg := Configure(Options(None, None, None, None, None));
      && Rescored(map[], nick, -0.25, cfg)[nick] == -0.75
      && !KickDue(nick, channel, admins, Seed(map[], nick, cfg) - 0.25, cfg)
  {
  }

  // ---------------------------------------------------------------------
  // Ranking for `!show_scores`
  // ---------------------------------------------------------------------

  function Min(a: nat, b: nat): nat { if a <= b then a else b }

  /**
   * `top` is the first `n` nicks of the score map sorted by descending
   * score: no repeats, non-increasing scores, and nobody left out scores
   * above anybody kept. Which of several tied nicks is kept is not fixed.
   */
  ghost predicate IsTop(top: seq<string>, scores: map<string, real>, n: nat)
  {
    && |top| == Min(n, |scores|)
    && (forall i :: 0 <= i < |top| ==> top[i] in scores)
    && (forall i, j :: 0 <= i < j < |top| ==> top[i] != top[j])
    && (forall i, j :: 0 <= i < j < |top| ==> scores[top[i]] >= scores[top[j]])
    && (forall u, i :: u in scores && u !in top && 0 <= i < |top| ==> scores[u] <= scores[top[i]])
  }

  /** A nick with the highest score among `among`. */
  method MaxScorer(scores: map<string, real>, among: set<string>) returns (best: string)
    requires among != {} && among <= scores.Keys
    ensures best in among
    ensures forall u :: u in among ==> scores[u] <= scores[best]
  {
    best :| best in among;
    var rest := among - {best};
    while rest != {}
      invariant rest <= among && best in among && best !in rest
      invariant forall u :: u in among - rest ==> scores[u] <= scores[best]
      decreases rest
    {
      var u :| u in rest;
      if scores[u] > scores[best] {
        best := u;
      }
      rest := rest - {u};
    }
  }

  /** `sorted(scores, key=lambda k: -scores[k])[:n]`, up to the order of ties. */
  method TopScorers(scores: map<string, real>, n: nat) returns (top: seq<string>)
    ensures IsTop(top, scores, n)
  {
    top := [];
    var remaining := scores.Keys;
    while |top| < n && remaining != {}
      invariant remaining <= scores.Keys
      invariant forall u :: u in scores ==> (u in remaining <==> u !in top)
      invariant |remaining| + |top| == |scores|
      invariant |top| <= n
      invariant forall i :: 0 <= i < |top| ==> top[i] in scores
      invariant forall i, j :: 0 <= i < j < |top| ==> top[i] != top[j]
      invariant forall i, j :: 0 <= i < j < |top| ==> scores[top[i]] >= scores[top[j]]
      invariant forall u, i :: u in remaining && 0 <= i < |top| ==> scores[u] <= scores[top[i]]
      decreases remaining
    {
      var best := MaxScorer(scores, remaining);
      top := top + [best];
      remaining := remaining - {best};
    }
  }

  /** The `(nick, score)` pairs of a score report; a nick without an entry shows None. */
  function Report(scores: map<string, real>, nicks: seq<string>): (r: seq<(string, Option<real>)>)
    ensures |r| == |nicks|
    ensures forall k :: 0 <= k < |nicks| ==> r[k].0 == nicks[k]
    ensures forall k :: 0 <= k < |nicks| ==> (r[k].1 == None <==> nicks[k] !in scores)
    ensures forall k :: 0 <= k < |nicks| && nicks[k] in scores ==> r[k].1 == Some(scores[nicks[k]])
  {
    seq(|nicks|, k requires 0 <= k < |nicks| => (nicks[k], if nicks[k] in scores then Some(scores[nicks[k]]) else None))
  }

  // ---------------------------------------------------------------------
  // The admin command table
  // ---------------------------------------------------------------------

  datatype Command = ResetNames | CountNames | ResetScores | ShowScores | AddAdmin | JoinChannel | LeaveChannel

  /** The word that invokes each command. */
  function Word(c: Command): string
  {
    match c
    case ResetNames => "!reset_names"
    case CountNames => "!count_names"
    case ResetScores => "!reset_scores"
    case ShowScores => "!show_scores"
    case AddAdmin => "!add_admin"
    case JoinChannel => "!join_channel"
    case LeaveChannel => "!leave_channel"
  }

  /** The command a word invokes, if any: exactly the inverse of `Word`. */
  function Lookup(w: string): (r: Option<Command>)
    ensures r.Some? ==> Word(r.value) == w
    ensures r.None? ==> forall c: Command :: Word(c) != w
  {
    if w == "!reset_names" then Some(ResetNames)
    else if w == "!count_names" then Some(CountNames)
    else if w == "!reset_scores" then Some(ResetScores)
    else if w == "!show_scores" then Some(ShowScores)
    else if w == "!add_admin" then Some(AddAdmin)
    else if w == "!join_channel" then Some(JoinChannel)
    else if w == "!leave_channel" then Some(LeaveChannel)
    else None
  }

  /** Every command is reached by its own word. */
  lemma LookupWord(c: Command)
    ensures Lookup(Word(c)) == Some(c)
  {
  }
}
