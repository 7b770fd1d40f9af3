# Spam Squelch Bot — moderation engine in Dafny

This project models the `Commands` class of the Spam Squelch IRC bot
(`squelchbot.py`). The class is a small event-driven moderation engine:

- it keeps the set of admins, the set of nicks seen in its channels and a
  spam score per nick;
- it scores every channel message with a heuristic over its tokens;
- it kicks a nick whose score climbs to the removal threshold;
- it answers seven `!` commands from its admins.

The model is imperative, like the source. `Squelch.Commands` is a class with
the fields `admins`, `knownUsers` and `userScores`, plus the fixed
configuration. Each event handler and command is a method that updates
those fields in place. The IRC connection is a second object,
`Channel.Connection`. It reports the joined channels and records every request
the engine makes (`kick`, `say`, `join`, `leave`, `names`), in order, in its
`sent` log. Each handler's contract states its new fields and exactly what it
appended to that log.

The scorer loop `Commands.ScoreMessage` is proved against the
function `Scoring.Score`. The properties of the heuristic are lemmas about
`Score` and its parts. Scores are exact reals, so every sum and threshold
comparison is over the reals, not over IEEE-754 doubles.

Modules:

- `Text`: the Python string built-ins the engine uses.
  - `str.strip(c)` removes every leading and every trailing `c`, and is
    proved to be the unique such slice.
  - `str.isupper()`: at least one cased character and no lower-case one.
  - `str.startswith`.
  - Counting of code points above 127.
- `Scoring`: the message-score heuristic as functions, with its lemmas.
- `Moderation`:
  - the configuration and its defaults;
  - the score-store policy (seed, add, floor, kick decision);
  - the top-5 ranking;
  - the command table.
- `Channel`: the outbound actions and the `Connection` object.
- `Squelch`: the `Commands` class.
- `Wrappers`: `Option`.

Two behaviours of the code shape the model.

- `str.strip` removes every leading and every trailing occurrence of its
  character. `Squelch.NickOf` and `Scoring.IsMention` use that full strip.
  Because `strip('@')` runs before `strip('+')`, a name-list entry such as
  `+@x` becomes `@x`.
- The kick branch of `privmsg` does not apply the floor, so a total at or
  above `removal_score` is stored as it is. `Moderation.Floored` is the
  invariant the code keeps. `Moderation.FlooredAboveMinimum` gives
  "every stored score is at least `minimum_score`" when
  `removal_score >= minimum_score`, as with the defaults.

## Model

| member | source | states |
|---|---|---|
| Squelch.Commands.constructor | squelchbot.py:22-34 | admins come from `admin_users` (or none); the four thresholds take their configured values or defaults; no nick is known and no score is stored |
| Moderation.Configure | squelchbot.py:28-31 | each threshold is the configured value when present, else -0.5, -0.7, -100 and 0 respectively |
| Squelch.Commands.HandleNameList | squelchbot.py:51-52 | the known nicks become the old set plus every listed entry stripped of `@` and then `+`; no known nick is lost and every listed entry's nick becomes known |
| Squelch.NickOf | squelchbot.py:52 | the nick a name-list entry yields neither starts nor ends with `+` |
| Squelch.Commands.UserJoined | squelchbot.py:54-55 | a joining nick is added to the known nicks, which only grow |
| Squelch.Commands.Privmsg | squelchbot.py:57-72 | the sender's entry (seeded at `default_score` if absent) moves by the message score and is settled by `Settle`; no other entry changes; a single kick of the sender, with its score, is sent exactly when `KickDue` holds, otherwise nothing is sent; the floor invariant is kept |
| Moderation.Seed | squelchbot.py:61 | an existing entry is taken as it is; a nick without an entry starts at `default_score` |
| Moderation.KickDue | squelchbot.py:67-69 | a kick is only ever due at or above the removal threshold, and never for an admin |
| Moderation.Rescored | squelchbot.py:61-72 | after a message the map's keys are the old keys plus the sender, and every other entry is unchanged |
| Moderation.FirstMessageSeeded | squelchbot.py:61-63 | a sender without an entry is scored from `default_score` |
| Moderation.Settle | squelchbot.py:67-72 | the stored value is never below the total; at or above the removal threshold it is the total itself; below it, it is the total or the floor, whichever is higher |
| Moderation.BelowRemovalFloored | squelchbot.py:67-72 | below the removal threshold the stored score is `max(minimum_score, total)` and so is at least `minimum_score` |
| Moderation.AtRemovalUnclamped | squelchbot.py:67-70 | at or above the removal threshold the total is stored unclamped |
| Moderation.KickDueExactly | squelchbot.py:67-70 | a kick is due if and only if the total reaches the threshold, the sender is not an admin and the channel is not the sender's own nick (a private message) |
| Moderation.RescoredFloored | squelchbot.py:61-72 | scoring a message preserves "every entry is at the floor or at the removal threshold or above" |
| Moderation.FlooredAboveMinimum | squelchbot.py:67-72 | when the removal threshold is not below the floor, every stored score is at least `minimum_score` |
| Moderation.NewSenderExample | squelchbot.py:61-72 | with the defaults, a new sender whose message scores -0.25 is stored at -0.75 and is not kicked |
| Squelch.Commands.ScoreMessage | squelchbot.py:74-104 | the loop over tokens (and over each token's characters) returns exactly `Score(tokens, knownUsers, message_score)`, and it changes no state |
| Scoring.Score | squelchbot.py:74-104 | a message never scores below `message_score` |
| Scoring.ScoreOfNoTokens | squelchbot.py:74-104 | a message without tokens scores exactly `message_score` |
| Squelch.ShoutBonus | squelchbot.py:81-88 | the upper-case branch of the loop adds exactly `TokenBonus(token)` |
| Scoring.TokenBonus | squelchbot.py:81-88 | a token that is not upper-case earns nothing; an upper-case one earns between 0.05 and 0.35 |
| Scoring.TokenBonusCases | squelchbot.py:81-88 | a token earns 0 if and only if it is not upper-case; 0.35 if and only if it is `#FREENODE`; 0.15 if and only if it is another upper-case `#` token; 0.25 if and only if it is `EL`; 0.05 if and only if it is any other upper-case token |
| Scoring.ShoutedWord | squelchbot.py:81-95 | a word of capital letters other than `EL` earns exactly 0.05 and contains no non-ASCII character |
| Scoring.ShoutingExample | squelchbot.py:74-104 | `HELLO #FREENODE WORLD`, with none of them a known nick and a base of -0.7, scores -0.25 |
| Text.StartsWith | squelchbot.py:85 | true if and only if the prefix is no longer than the string and agrees with it character by character |
| Text.IsUpper | squelchbot.py:81 | true if and only if the string has a cased character and no lower-case one; an upper-case string has an upper-case letter |
| Text.HasCased | squelchbot.py:81 | true if and only if some character is a cased letter |
| Text.HasLower | squelchbot.py:81 | true if and only if some character is a lower-case letter |
| Scoring.UpperBonus | squelchbot.py:80-88 | the summed per-token bonuses are never negative |
| Scoring.Mentions | squelchbot.py:90-91 | the number of tokens that name a known nick, once stripped of `:`, is at most the number of tokens |
| Scoring.IsMention | squelchbot.py:90 | a known nick written without colons around it is a mention |
| Scoring.Addressed | squelchbot.py:90 | a token `nick:` strips to `nick`, so addressing a known nick mentions it |
| Scoring.MentionBonus | squelchbot.py:99-100 | no bonus for at most one mention; at least 0.2 from two mentions on |
| Scoring.MentionBonusMonotone | squelchbot.py:99-100 | more mentions never earn a smaller bonus |
| Scoring.MentionExample | squelchbot.py:90-100 | `alice: bob: carol:` with all three known makes 3 mentions, and a bonus of 0.05 * 2^3 = 0.4 |
| Scoring.ScoreMonotoneInKnown | squelchbot.py:90-100 | knowing more nicks never lowers a message's score |
| Scoring.NonAsciiBonus | squelchbot.py:101-102 | no bonus for at most one non-ASCII code point; at least 0.03 from two on |
| Scoring.TwoPow | squelchbot.py:100 | `2 ** e` is at least 1 |
| Scoring.OnePointTwoPow | squelchbot.py:102 | `1.2 ** e` is at least 1 |
| Squelch.CountNonAscii | squelchbot.py:93-95 | the character loop counts exactly `NonAsciiChars(token)` |
| Scoring.NonAscii | squelchbot.py:93-95 | the count over a whole message is 0 if and only if no token has a code point above 127 |
| Text.NonAsciiChars | squelchbot.py:93-95 | the count is at most the length, and is 0 if and only if no code point is above 127 |
| Scoring.ScoreRotation | squelchbot.py:80-104 | moving a message's first tokens to its end does not change its score |
| Text.Strip | squelchbot.py:90 | the result is no longer than the input and neither starts nor ends with the stripped character |
| Text.StripIsSlice | squelchbot.py:90 | `strip` keeps one contiguous slice of its input |
| Text.StripDropsOnlyBorder | squelchbot.py:90 | what `strip` drops before and after that slice is the stripped character and nothing else |
| Text.StripUnique | squelchbot.py:90 | any slice bordered only by the stripped character, that neither starts nor ends with it, is the result of `strip` |
| Text.StripIdempotent | squelchbot.py:90 | stripping twice gives the same result as stripping once |
| Text.StripUnbordered | squelchbot.py:90 | a string that neither starts nor ends with the character is left unchanged |
| Channel.Connection.constructor | squelchbot.py:119 | the connection reports the given joined channels and has sent nothing |
| Channel.Connection.Kick | squelchbot.py:107 | exactly one kick request is appended to the log |
| Channel.Connection.Say | squelchbot.py:126 | exactly one reply to the given target is appended to the log |
| Channel.Connection.Join | squelchbot.py:174 | exactly one join request is appended to the log |
| Channel.Connection.Leave | squelchbot.py:183 | exactly one leave request, with its reason, is appended to the log |
| Channel.Connection.Names | squelchbot.py:120 | exactly one names query is appended to the log |
| Squelch.Commands.RemoveUser | squelchbot.py:106-107 | exactly one kick of `[nick]` from the channel, with the score as its reason, is sent |
| Squelch.Commands.ResetNames | squelchbot.py:111-126 | for an admin: the known nicks are emptied, then one names query per joined channel is sent, in order, then one `Done.` reply; for anyone else, nothing changes and nothing is sent |
| Channel.NamesQueries | squelchbot.py:119-120 | one names query per channel, in the channels' order |
| Squelch.Commands.ShowNames | squelchbot.py:128-134 | for an admin: a single reply giving the number of known nicks; for anyone else, nothing is sent |
| Squelch.Commands.ResetScores | squelchbot.py:136-146 | for an admin: with names, exactly the named entries are removed (absent names are ignored) and the rest are unchanged; without names, the map is emptied; then one `Done.` reply; for anyone else, nothing changes |
| Squelch.Commands.ShowScores | squelchbot.py:148-159 | for an admin: the reply lists the named nicks with their scores (None for a nick without an entry); without names, it lists a top-5 selection as `IsTop` defines it; for anyone else, nothing is sent |
| Moderation.TopScorers | squelchbot.py:155 | the result has min(5, number of entries) distinct nicks, all with entries, in non-increasing score order; no nick left out scores above a nick kept |
| Moderation.MaxScorer | squelchbot.py:155 | returns a nick of the candidate set whose score is at least every other candidate's |
| Moderation.Report | squelchbot.py:157 | one pair per requested nick, in order, giving the nick's score or None when it has no entry |
| Squelch.Commands.AddAdmin | squelchbot.py:161-167 | for an admin: the admin set becomes the old set plus every named nick, then one `Done.` reply; for anyone else, nothing changes |
| Squelch.Commands.JoinChannel | squelchbot.py:169-176 | for an admin: one join request per named channel, in order, then one `Done.` reply; for anyone else, nothing is sent |
| Channel.JoinRequests | squelchbot.py:173-174 | one join request per channel, in order |
| Squelch.Commands.LeaveChannel | squelchbot.py:178-185 | for an admin: one leave request with reason `Bye` per named channel, in order, then one `Done.` reply; for anyone else, nothing is sent |
| Channel.LeaveRequests | squelchbot.py:182-183 | one `Bye` leave request per channel, in order |
| Moderation.Lookup | squelchbot.py:36-44 | a word maps to the command registered under it, and to none when no command is registered under it |
| Moderation.LookupWord | squelchbot.py:36-44 | every command is reached by its own word |
| Squelch.Commands.Dispatch | squelchbot.py:36-44 | a command from a non-admin changes no field and sends nothing; a command from an admin ends with a reply to the sender, and leaves the fields and the log exactly as the handler registered for it does |

## Left out

- The `Ident` class and the `__main__` block: configuration file loading and
  process start-up.
- The IRC library: transport, line parsing, and the routing of messages to
  `privmsg`, `user_joined`, `handle_name_list` and the `!` commands. The model
  takes already-parsed events. A command arrives as a `Moderation.Command`
  value, and `Moderation.Lookup` gives the word-to-command table.
- The library's connection object: `Channel.Connection` stands for it.
  - It records requests and does not carry them out.
  - `join`/`leave` do not change `channels`, because the library's own
    bookkeeping is not visible.
- The `time.sleep` throttle between names queries in `reset_names`. It is
  wall-clock blocking and changes no state.
- The debug `print` calls.
- IEEE-754 rounding and range: scores, bonuses and thresholds are exact
  reals, so `0.05 + 0.3` is exactly `0.35` here. Python raises
  `OverflowError` at `0.05 * 2**m` once m reaches 1024 (line 100) and at
  `1.2**n` for very large n (line 102); exact reals never overflow. Neither
  count can get that large within one IRC line of 512 bytes.
- The text of replies and kick reasons. Replies are structured values
  (`Channel.Reply`), and a kick carries the score itself instead of the
  formatted `spam: <score>`.
- Unicode case tables: `isupper` is modelled over the ASCII letters. Any other
  character counts as uncased.
- Moderation.TopScorers: the order among nicks with equal scores is left open.
  Python's `sorted` is stable over the dictionary's insertion order, which the
  model does not track.
- The inline layout of `score_message`. Its upper-case bonus block
  (`Squelch.ShoutBonus`) and its character loop (`Squelch.CountNonAscii`) are
  separate methods called from the token loop.
- The sender's host, which `remove_user` ignores. It is passed through and
  plays no other part.
