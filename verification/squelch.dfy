/**
 * The moderation engine itself: the state it keeps between events (the
 * admins, the nicks seen in its channels, the per-nick spam scores) and one
 * method per event handler and admin command. Each handler runs to
 * completion before the next event; what it asks of the channel interface
 * is appended to `conn.sent`.
 */
module Squelch {
  import opened Wrappers
  import opened Text
  import opened Scoring
  import opened Channel
  import opened Moderation

  /** The set of the elements of `s`. */
  function Elems(s: seq<string>): (r: set<string>)
    ensures forall x :: x in r <==> x in s
  {
    set x | x in s
  }

  /** The nick a name-list entry stands for, without its `@` (operator) and `+` (voice) markers. */
  function NickOf(entry: string): (nick: string)
    ensures nick == [] || (nick[0] != '+' && nick[|nick| - 1] != '+')
  {
    Strip(Strip(entry, '@'), '+')
  }

  /**
   * The upper-case part of scoring one token: 0.05 for an upper-case token,
   * then at most one of 0.3 (`#FREENODE`), 0.1 (another `#` token) or 0.2
   * (`EL`), tested in that order.
   */
  method ShoutBonus(token: string) returns (bonus: real)
    ensures bonus == TokenBonus(token)
  {
    bonus := 0.0;
    if IsUpper(token) {
      bonus := bonus + 0.05;
      if token == "#FREENODE" {
        bonus := bonus + 0.3;
      } else if StartsWith(token, "#") {
        bonus := bonus + 0.1;
      } else if token == "EL" {
        bonus := bonus + 0.2;
      }
    }
  }

  /** The character loop of the scorer: counts the code points above 127 in one token. */
  method CountNonAscii(token: string) returns (n: nat)
    ensures n == NonAsciiChars(token)
  {
    n := 0;
    for j := 0 to |token|
      invariant n == NonAsciiChars(token[..j])
    {
      NonAsciiCharsStep(token, j);
      if IsNonAscii(token[j]) {
        n := n + 1;
      }
    }
    assert token[..|token|] == token;
  }

  class Commands {
    const conn: Connection
    const cfg: Config
    var admins: set<string>
    var knownUsers: set<string>
    var userScores: map<string, real>

    /** Every stored score is floored, except where the kick branch left it. */
    ghost predicate Valid()
      reads this
    {
      Floored(userScores, cfg)
    }

    constructor (conn: Connection, conf: Options)
      ensures Valid()
      ensures this.conn == conn && cfg == Configure(conf)
      ensures admins == Elems(conf.adminUsers.GetOr([]))
      ensures knownUsers == {} && userScores == map[]
    {
      this.conn := conn;
      admins := Elems(conf.adminUsers.GetOr([]));
      cfg := Configure(conf);
      knownUsers := {};
      userScores := map[];
    }

    // -------------------------------------------------------------------
    // Identity tracking
    // -------------------------------------------------------------------

    /** A name list adds every listed nick, stripped of its role markers. */
    method HandleNameList(entries: seq<string>, channel: string)
      modifies this`knownUsers
      ensures knownUsers == old(knownUsers) + set e | e in entries :: NickOf(e)
      ensures old(knownUsers) <= knownUsers && forall e :: e in entries ==> NickOf(e) in knownUsers
    {
      knownUsers := knownUsers + set e | e in entries :: NickOf(e);
    }

    /** A nick that joins becomes known. */
    method UserJoined(nick: string)
      modifies this`knownUsers
      ensures knownUsers == old(knownUsers) + {nick}
      ensures old(knownUsers) <= knownUsers
    {
      knownUsers := knownUsers + {nick};
    }

    // -------------------------------------------------------------------
    // Scoring and removal
    // -------------------------------------------------------------------

    /** The score delta of a message; reads the known nicks and changes nothing. */
    method ScoreMessage(tokens: seq<string>) returns (score: real)
      ensures score == Score(tokens, knownUsers, cfg.messageScore)
    {
      var known := knownUsers;
      score := cfg.messageScore;
      var usersMentioned := 0;
      var nonAscii := 0;
      for i := 0 to |tokens|
        invariant score == cfg.messageScore + UpperBonus(tokens[..i])
        invariant usersMentioned == Mentions(tokens[..i], known)
        invariant nonAscii == NonAscii(tokens[..i])
      {
        var token := tokens[i];
        PrefixStep(tokens, i, known);
        var bonus := ShoutBonus(token);
        score := score + bonus;
        if IsMention(token, known) {
          usersMentioned := usersMentioned + 1;
        }
        var found := CountNonAscii(token);
        nonAscii := nonAscii + found;
      }
      assert tokens[..|tokens|] == tokens;
      if usersMentioned > 1 {
        score := score + 0.05 * TwoPow(usersMentioned);
      }
      if nonAscii > 1 {
        score := score + 0.03 * OnePointTwoPow(nonAscii);
      }
    }

    /**
     * A message from `nick` in `channel`: the nick's entry (seeded if new)
     * moves by the message's score, and the nick is kicked when the entry
     * reaches the threshold, unless it is an admin or the message is private.
     */
    method Privmsg(tokens: seq<string>, nick: string, channel: string, host: string)
      requires Valid()
      modifies this`userScores, conn`sent
      ensures Valid()
      ensures userScores == Rescored(old(userScores), nick, Score(tokens, knownUsers, cfg.messageScore), cfg)
      ensures var total := Seed(old(userScores), nick, cfg) + Score(tokens, knownUsers, cfg.messageScore);
        conn.sent == old(conn.sent)
                     + (if KickDue(nick, channel, admins, total, cfg) then [Action.Kick(channel, [nick], total)] else [])
    {
      ghost var scores0 := userScores;
      ghost var delta := Score(tokens, knownUsers, cfg.messageScore);
      ghost var total := Seed(scores0, nick, cfg) + delta;
      ghost var stored := Settle(total, cfg);
      ghost var kick := KickDue(nick, channel, admins, total, cfg);
      assert Rescored(scores0, nick, delta, cfg) == scores0[nick := stored];
      RescoredFloored(scores0, nick, delta, cfg);
      if nick !in userScores {
        userScores := userScores[nick := cfg.defaultScore];
      } else {
        UpdateSame(scores0, nick);
      }
      assert userScores == scores0[nick := Seed(scores0, nick, cfg)];
      var messageScore := ScoreMessage(tokens);
      userScores := userScores[nick := userScores[nick] + messageScore];
      var score := userScores[nick];
      UpdateTwice(scores0, nick, Seed(scores0, nick, cfg), total);
      assert score == total && userScores == scores0[nick := total];
      if score >= cfg.removalScore {
        assert stored == total;
        if nick !in admins + {channel} {
          RemoveUser(nick, host, channel, score);
          assert kick;
        } else {
          assert !kick;
        }
      } else {
        var floored := Max(cfg.minimumScore, score);
        assert floored == stored;
        userScores := userScores[nick := floored];
        UpdateTwice(scores0, nick, total, stored);
        assert !kick;
      }
    }

    /** Kicks `nick` from `channel`, giving its score as the reason. */
    method RemoveUser(nick: string, host: string, channel: string, score: real)
      modifies conn`sent
      ensures conn.sent == old(conn.sent) + [Action.Kick(channel, [nick], score)]
    {
      conn.Kick(channel, [nick], score);
    }

    // -------------------------------------------------------------------
    // Admin commands; each is silently ignored when the sender is not an admin
    // -------------------------------------------------------------------

    /** Forgets every known nick and asks each joined channel for its names again. */
    method ResetNames(nick: string)
      requires Valid()
      modifies this`knownUsers, conn`sent
      ensures Valid()
      ensures nick !in admins ==> knownUsers == old(knownUsers) && conn.sent == old(conn.sent)
      ensures nick in admins ==>
        && knownUsers == {}
        && conn.sent == old(conn.sent) + NamesQueries(conn.channels) + [Action.Say(Done, nick)]
    {
      if nick !in admins {
        return;
      }
      knownUsers := {};
      for i := 0 to |conn.channels|
        invariant knownUsers == {}
        invariant conn.sent == old(conn.sent) + NamesQueries(conn.channels[..i])
      {
        assert conn.channels[..i + 1][..i] == conn.channels[..i];
        conn.Names(conn.channels[i]);
      }
      assert conn.channels[..|conn.channels|] == conn.channels;
      conn.Say(Done, nick);
    }

    /** Replies with the number of known nicks. */
    method ShowNames(nick: string)
      modifies conn`sent
      ensures nick !in admins ==> conn.sent == old(conn.sent)
      ensures nick in admins ==> conn.sent == old(conn.sent) + [Action.Say(KnownUsers(|knownUsers|), nick)]
    {
      if nick !in admins {
        return;
      }
      conn.Say(KnownUsers(|knownUsers|), nick);
    }

    /** Drops the entries of the named nicks, or every entry when none is named. */
    method ResetScores(args: seq<string>, nick: string)
      requires Valid()
      modifies this`userScores, conn`sent
      ensures Valid()
      ensures nick !in admins ==> userScores == old(userScores) && conn.sent == old(conn.sent)
      ensures nick in admins ==>
        && userScores == (if args == [] then map[] else old(userScores) - Elems(args))
        && conn.sent == old(conn.sent) + [Action.Say(Done, nick)]
    {
      if nick !in admins {
        return;
      }
      if args != [] {
        for i := 0 to |args|
          invariant Valid()
          invariant conn.sent == old(conn.sent)
          invariant userScores == old(userScores) - Elems(args[..i])
        {
          assert Elems(args[..i + 1]) == Elems(args[..i]) + {args[i]} by {
            assert args[..i + 1] == args[..i] + [args[i]];
          }
          userScores := userScores - {args[i]};
        }
        assert args[..|args|] == args;
      } else {
        userScores := map[];
      }
      conn.Say(Done, nick);
    }

    /**
     * Replies with the scores of the named nicks, or of the five highest
     * scorers when none is named.
     */
    method ShowScores(args: seq<string>, nick: string)
      modifies conn`sent
      ensures nick !in admins ==> conn.sent == old(conn.sent)
      ensures nick in admins && args != [] ==>
        conn.sent == old(conn.sent) + [Action.Say(ScoreList(Report(userScores, args)), nick)]
      ensures nick in admins && args == [] ==>
        exists top :: IsTop(top, userScores, 5)
                      && conn.sent == old(conn.sent) + [Action.Say(ScoreList(Report(userScores, top)), nick)]
    {
      if nick !in admins {
        return;
      }
      var users;
      if args != [] {
        users := args;
      } else {
        users := TopScorers(userScores, 5);
      }
      conn.Say(ScoreList(Report(userScores, users)), nick);
    }

    /** Grants admin rights to every named nick. */
    method AddAdmin(args: seq<string>, nick: string)
      modifies this`admins, conn`sent
      ensures nick !in old(admins) ==> admins == old(admins) && conn.sent == old(conn.sent)
      ensures nick in old(admins) ==>
        admins == old(admins) + Elems(args) && conn.sent == old(conn.sent) + [Action.Say(Done, nick)]
    {
      if nick !in admins {
        return;
      }
      admins := admins + Elems(args);
      conn.Say(Done, nick);
    }

    /** Asks to join every named channel. */
    method JoinChannel(args: seq<string>, nick: string)
      modifies conn`sent
      ensures nick !in admins ==> conn.sent == old(conn.sent)
      ensures nick in admins ==> conn.sent == old(conn.sent) + JoinRequests(args) + [Action.Say(Done, nick)]
    {
      if nick !in admins {
        return;
      }
      for i := 0 to |args|
        invariant conn.sent == old(conn.sent) + JoinRequests(args[..i])
      {
        assert args[..i + 1][..i] == args[..i];
        conn.Join(args[i]);
      }
      assert args[..|args|] == args;
      conn.Say(Done, nick);
    }

    /** Asks to leave every named channel, saying `Bye`. */
    method LeaveChannel(args: seq<string>, nick: string)
      modifies conn`sent
      ensures nick !in admins ==> conn.sent == old(conn.sent)
      ensures nick in admins ==> conn.sent == old(conn.sent) + LeaveRequests(args) + [Action.Say(Done, nick)]
    {
      if nick !in admins {
        return;
      }
      for i := 0 to |args|
        invariant conn.sent == old(conn.sent) + LeaveRequests(args[..i])
      {
        assert args[..i + 1][..i] == args[..i];
        conn.Leave("Bye", args[i]);
      }
      assert args[..|args|] == args;
      conn.Say(Done, nick);
    }

    /**
     * Runs the handler registered for `command`. A sender who is not an
     * admin changes nothing and gets no reply.
     */
    method Dispatch(command: Command, args: seq<string>, nick: string)
      requires Valid()
      modifies this`knownUsers, this`userScores, this`admins, conn`sent
      ensures Valid()
      ensures nick !in old(admins) ==>
        && admins == old(admins) && knownUsers == old(knownUsers) && userScores == old(userScores)
        && conn.sent == old(conn.sent)
      ensures nick in old(admins) ==>
        && |conn.sent| > |old(conn.sent)|
        && conn.sent[|conn.sent| - 1].Say? && conn.sent[|conn.sent| - 1].target == nick
      ensures nick in old(admins) ==> match command
        case ResetNames =>
          && knownUsers == {} && userScores == old(userScores) && admins == old(admins)
          && conn.sent == old(conn.sent) + NamesQueries(conn.channels) + [Action.Say(Done, nick)]
        case CountNames =>
          && knownUsers == old(knownUsers) && userScores == old(userScores) && admins == old(admins)
          && conn.sent == old(conn.sent) + [Action.Say(KnownUsers(|knownUsers|), nick)]
        case ResetScores =>
          && knownUsers == old(knownUsers) && admins == old(admins)
          && userScores == (if args == [] then map[] else old(userScores) - Elems(args))
          && conn.sent == old(conn.sent) + [Action.Say(Done, nick)]
        case ShowScores =>
          && knownUsers == old(knownUsers) && userScores == old(userScores) && admins == old(admins)
          && (args != [] ==> conn.sent == old(conn.sent) + [Action.Say(ScoreList(Report(userScores, args)), nick)])
          && (args == [] ==>
                exists top :: IsTop(top, userScores, 5)
                  && conn.sent == old(conn.sent) + [Action.Say(ScoreList(Report(userScores, top)), nick)])
        case AddAdmin =>
          && knownUsers == old(knownUsers) && userScores == old(userScores)
          && admins == old(admins) + Elems(args)
          && conn.sent == old(conn.sent) + [Action.Say(Done, nick)]
        case JoinChannel =>
          && knownUsers == old(knownUsers) && userScores == old(userScores) && admins == old(admins)
          && conn.sent == old(conn.sent) + JoinRequests(args) + [Action.Say(Done, nick)]
        case LeaveChannel =>
          && knownUsers == old(knownUsers) && userScores == old(userScores) && admins == old(admins)
          && conn.sent == old(conn.sent) + LeaveRequests(args) + [Action.Say(Done, nick)]
    {
      match command
      case ResetNames => ResetNames(nick);
      case CountNames => ShowNames(nick);
      case ResetScores => ResetScores(args, nick);
      case ShowScores => ShowScores(args, nick);
      case AddAdmin => AddAdmin(args, nick);
      case JoinChannel => JoinChannel(args, nick);
      case LeaveChannel => LeaveChannel(args, nick);
    }
  }
}
