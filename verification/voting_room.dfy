/** The voting page of frontend/src/components/VotingRoom.jsx: the tally it
    shows (total and per-option percentage) and the one-vote guard of
    `handleVote`, which remembers voted polls in the browser's storage. The
    socket's outgoing messages are the `sent` field; the stored list of voted
    poll ids is the `votedPolls` field. */
module VotingRoom {
  import opened Wrappers
  import opened PollModel

  // ---------------------------------------------------------------------------
  // The tally

  /** `poll?.options.reduce((sum, opt) => sum + opt.voteCount, 0) || 0`. */
  function TotalVotes(poll: Option<Poll>): (total: int)
    ensures poll.None? ==> total == 0
    ensures poll.Some? ==> total == VoteTotal(poll.value.options)
    ensures poll.Some? && NonNegativeCounts(poll.value.options) ==>
      && total >= 0
      && forall i :: 0 <= i < |poll.value.options| ==> 0 <= poll.value.options[i].voteCount <= total
  {
    if poll.None? then 0
    else
      var opts := poll.value.options;
      if NonNegativeCounts(opts) then CountsWithinTotal(opts); VoteTotal(opts)
      else VoteTotal(opts)
  }

  /** `Math.round(n / d)` on the exact quotient: the nearest integer, halves
      rounded up. */
  function RoundedQuotient(n: int, d: int): (r: int)
    requires d > 0
    ensures r * (2 * d) <= 2 * n + d < (r + 1) * (2 * d)
  {
    (2 * n + d) / (2 * d)
  }

  /** Line 138: the share of the total an option has, in whole percent. */
  function Percentage(count: int, total: int): int {
    if total > 0 then RoundedQuotient(100 * count, total) else 0
  }

  /** Multiplying by a non-negative number keeps the order. */
  lemma {:induction false} MulMonotone(a: int, b: int, m: nat)
    requires a <= b
    ensures a * m <= b * m
  {
    if m > 0 {
      MulMonotone(a, b, m - 1);
      assert a * m == a * (m - 1) + a && b * m == b * (m - 1) + b;
    }
  }

  /** Whenever the count is at most the total, the bar is 0 to 100 percent
      wide; with no votes at all every bar is 0. */
  lemma PercentageBounds(count: int, total: int)
    requires 0 <= count <= total
    ensures 0 <= Percentage(count, total) <= 100
    ensures total == 0 ==> Percentage(count, total) == 0
  {
    if total > 0 {
      var r := RoundedQuotient(100 * count, total);
      var m := 2 * total;
      assert r * m <= 200 * count + total < (r + 1) * m;
      if r > 100 {
        MulMonotone(101, r, m);
        assert false;
      } else if r < 0 {
        MulMonotone(r + 1, 0, m);
        assert false;
      }
    }
  }

  /** All of a poll's votes on one option show as 100 percent, none as 0. */
  lemma PercentageExtremes(total: int)
    requires total > 0
    ensures Percentage(total, total) == 100 && Percentage(0, total) == 0
  {
    var m := 2 * total;
    var r := RoundedQuotient(100 * total, total);
    assert r * m <= 201 * total < (r + 1) * m;
    if r < 100 {
      MulMonotone(r + 1, 100, m);
      assert false;
    } else if r > 100 {
      MulMonotone(101, r, m);
      assert false;
    }
    var z := RoundedQuotient(0, total);
    assert z * m <= total < (z + 1) * m;
    if z < 0 {
      MulMonotone(z + 1, 0, m);
      assert false;
    } else if z > 0 {
      MulMonotone(1, z, m);
      assert false;
    }
  }

  /** Every option of a loaded poll with non-negative counts shows 0 to 100. */
  lemma OptionPercentagesBounded(poll: Poll, i: nat)
    requires NonNegativeCounts(poll.options)
    requires i < |poll.options|
    ensures 0 <= Percentage(poll.options[i].voteCount, TotalVotes(Some(poll))) <= 100
  {
    PercentageBounds(poll.options[i].voteCount, TotalVotes(Some(poll)));
  }

  // ---------------------------------------------------------------------------
  // The stored list of voted polls

  predicate NoDuplicates(s: seq<PollId>) {
    forall i, j :: 0 <= i < j < |s| ==> s[i] != s[j]
  }

  /** `if (!votedPolls.includes(id)) votedPolls.push(id)`. */
  function AppendIfAbsent(list: seq<PollId>, id: PollId): (r: seq<PollId>)
    ensures id in r
    ensures |list| <= |r| && r[..|list|] == list
    ensures multiset(r) == multiset(list) + (if id in list then multiset{} else multiset{id})
  {
    if id in list then list else list + [id]
  }

  /** Recording a vote never introduces a duplicate. */
  lemma AppendIfAbsentNoDuplicates(list: seq<PollId>, id: PollId)
    requires NoDuplicates(list)
    ensures NoDuplicates(AppendIfAbsent(list, id))
  {
    var r := AppendIfAbsent(list, id);
    forall i, j | 0 <= i < j < |r| ensures r[i] != r[j] {
      if j == |list| {
        assert r[i] == list[i];
      }
    }
  }

  // ---------------------------------------------------------------------------
  // The page state

  /** What the page emits on its socket. */
  datatype ClientMessage = JoinPollMessage(pollId: PollId) | VoteMessage(pollId: PollId, optionId: OptionId)

  /** How many vote messages a sequence of emits holds. */
  function VotesSent(sent: seq<ClientMessage>): nat {
    if sent == [] then 0
    else VotesSent(sent[..|sent| - 1]) + (if sent[|sent| - 1].VoteMessage? then 1 else 0)
  }

  lemma VotesSentAppend(sent: seq<ClientMessage>, m: ClientMessage)
    ensures VotesSent(sent + [m]) == VotesSent(sent) + (if m.VoteMessage? then 1 else 0)
  {
    assert (sent + [m])[..|sent|] == sent;
  }

  class VotingRoomView {
    /** The poll id from the route. */
    const id: PollId
    var hasVoted: bool
    /** The `socket` state has been set. */
    var connected: bool
    /** localStorage `votedPollIds`. */
    var votedPolls: seq<PollId>
    var sent: seq<ClientMessage>

    /** The page has voted exactly when the stored list holds this poll, and
        it has sent at most one vote, only ever after setting `hasVoted`. */
    ghost predicate Valid()
      reads this
    {
      && (hasVoted <==> id in votedPolls)
      && VotesSent(sent) <= 1
      && (VotesSent(sent) == 1 ==> hasVoted)
    }

    /** Mounting the page: `hasVoted` starts false and the first effect sets it
        when the stored list already holds this poll. */
    constructor (pollId: PollId, stored: seq<PollId>)
      ensures Valid()
      ensures id == pollId && votedPolls == stored && sent == [] && !connected
      ensures hasVoted <==> pollId in stored
    {
      id := pollId;
      votedPolls := stored;
      sent := [];
      connected := false;
      hasVoted := false;
      new;
      if pollId in stored {
        hasVoted := true;
      }
    }

    /** The socket effect: connect and join this poll's room. */
    method Connect()
      requires Valid()
      modifies this
      ensures Valid()
      ensures connected && sent == old(sent) + [JoinPollMessage(id)]
      ensures hasVoted == old(hasVoted) && votedPolls == old(votedPolls)
    {
      VotesSentAppend(sent, JoinPollMessage(id));
      connected := true;
      sent := sent + [JoinPollMessage(id)];
    }

    /** `handleVote(optionId)`. */
    method HandleVote(optionId: OptionId)
      requires Valid()
      modifies this
      ensures Valid()
      ensures connected == old(connected)
      // already voted, or no socket yet: nothing is emitted or stored
      ensures old(hasVoted) || !connected ==>
        hasVoted == old(hasVoted) && sent == old(sent) && votedPolls == old(votedPolls)
      // otherwise one vote is emitted and the poll is remembered
      ensures !old(hasVoted) && connected ==>
        && hasVoted
        && sent == old(sent) + [VoteMessage(id, optionId)]
        && votedPolls == AppendIfAbsent(old(votedPolls), id)
    {
      if hasVoted || !connected {
        return;
      }
      VotesSentAppend(sent, VoteMessage(id, optionId));
      sent := sent + [VoteMessage(id, optionId)];
      hasVoted := true;
      if id !in votedPolls {
        votedPolls := votedPolls + [id];
      }
    }
  }

  /** Two clicks on a fresh page send one vote; a page whose poll is already
      stored sends none. */
  method DoubleClickScenario(pollId: PollId, a: OptionId, b: OptionId)
  {
    var page := new VotingRoomView(pollId, []);
    page.Connect();
    page.HandleVote(a);
    page.HandleVote(b);
    assert VotesSent(page.sent) == 1 && page.votedPolls == [pollId];
    var again := new VotingRoomView(pollId, page.votedPolls);
    again.Connect();
    again.HandleVote(a);
    assert VotesSent(again.sent) == 0;
  }
}
