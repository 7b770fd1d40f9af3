/**
 * The channel interface the moderation engine talks to. It is an outside
 * collaborator (the IRC library's connection object): the model keeps the
 * channels it reports as joined, and records every request the engine
 * issues, in order, as an `Action`.
 */
module Channel {
  import opened Wrappers

  /** The text of a private reply, as structured data rather than formatted text. */
  datatype Reply =
    | Done
      /** `Known users: <count>` */
    | KnownUsers(count: nat)
      /** `<nick>: <score>, ...`; a nick without an entry shows as None. */
    | ScoreList(entries: seq<(string, Option<real>)>)

  /** One outbound request; the kick reason is `spam: <score>`, kept as the score. */
  datatype Action =
    | Kick(channel: string, nicks: seq<string>, score: real)
    | Say(reply: Reply, target: string)
    | Join(channel: string)
    | Leave(reason: string, channel: string)
    | Names(channel: string)

  class Connection {
    /** The channels currently joined, in the order the library reports them. */
    var channels: seq<string>
    /** Every request issued so far, oldest first. */
    var sent: seq<Action>

    constructor (channels: seq<string>)
      ensures this.channels == channels && sent == []
    {
      this.channels := channels;
      sent := [];
    }

    method Kick(channel: string, nicks: seq<string>, score: real)
      modifies this`sent
      ensures sent == old(sent) + [Action.Kick(channel, nicks, score)]
    {
      sent := sent + [Action.Kick(channel, nicks, score)];
    }

    method Say(reply: Reply, target: string)
      modifies this`sent
      ensures sent == old(sent) + [Action.Say(reply, target)]
    {
      sent := sent + [Action.Say(reply, target)];
    }

    method Join(channel: string)
      modifies this`sent
      ensures sent == old(sent) + [Action.Join(channel)]
    {
      sent := sent + [Action.Join(channel)];
    }

    method Leave(reason: string, channel: string)
      modifies this`sent
      ensures sent == old(sent) + [Action.Leave(reason, channel)]
    {
      sent := sent + [Action.Leave(reason, channel)];
    }

    method Names(channel: string)
      modifies this`sent
      ensures sent == old(sent) + [Action.Names(channel)]
    {
      sent := sent + [Action.Names(channel)];
    }
  }

  /** One names query per channel, in order. */
  function NamesQueries(chans: seq<string>): (r: seq<Action>)
    ensures |r| == |chans| && forall k :: 0 <= k < |chans| ==> r[k] == Action.Names(chans[k])
  {
    if chans == [] then [] else NamesQueries(chans[..|chans| - 1]) + [Action.Names(chans[|chans| - 1])]
  }

  /** One join request per channel, in order. */
  function JoinRequests(chans: seq<string>): (r: seq<Action>)
    ensures |r| == |chans| && forall k :: 0 <= k < |chans| ==> r[k] == Action.Join(chans[k])
  {
    if chans == [] then [] else JoinRequests(chans[..|chans| - 1]) + [Action.Join(chans[|chans| - 1])]
  }

  /** One leave request per channel, each with the reason `Bye`, in order. */
  function LeaveRequests(chans: seq<string>): (r: seq<Action>)
    ensures |r| == |chans| && forall k :: 0 <= k < |chans| ==> r[k] == Action.Leave("Bye", chans[k])
  {
    if chans == [] then [] else LeaveRequests(chans[..|chans| - 1]) + [Action.Leave("Bye", chans[|chans| - 1])]
  }
}
