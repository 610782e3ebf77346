/** The real-time part of backend/server.js: the `joinPoll` and `vote` socket
    handlers, the per-(poll, client address) rate-limit map with its fixed
    one-minute window, and the periodic sweep of that map. The clock is the
    `now` parameter, the Poll collection is the `store` field and the
    socket.io rooms are the `rooms` field. */
module Server {
  import opened Wrappers
  import opened PollModel
  import Decimal
  import PollRoutes

  /** `socket.id` of a connection. */
  type ConnId = string

  /** The rate-limit window, in milliseconds. */
  const RateLimitWindow: int := 60 * 1000

  const NotFoundError := "Poll or option not found"
  const VoteError := "Error recording vote"

  // ---------------------------------------------------------------------------
  // Client address

  /** `s.split(',')[0]`: the text before the first comma, or all of `s`. */
  function FirstField(s: string): (r: string)
    ensures |r| <= |s| && r == s[..|r|]
    ensures forall i :: 0 <= i < |r| ==> r[i] != ','
    ensures |r| < |s| ==> s[|r|] == ','
  {
    if s == [] || s[0] == ',' then [] else [s[0]] + FirstField(s[1..])
  }

  /** The address a vote is limited under: the first entry of the
      `x-forwarded-for` header when there is a non-empty one, otherwise the
      address of the handshake. */
  function ClientIp(forwarded: Option<string>, address: string): (ip: string)
    ensures forwarded.None? ==> ip == address
    ensures forwarded.Some? && (forwarded.value == [] || forwarded.value[0] == ',') ==> ip == address
    ensures forwarded.Some? && forwarded.value != [] && forwarded.value[0] != ',' ==>
      && ip != []
      && |ip| <= |forwarded.value|
      && ip == forwarded.value[..|ip|]
      && (forall i :: 0 <= i < |ip| ==> ip[i] != ',')
      && (|ip| == |forwarded.value| || forwarded.value[|ip|] == ',')
  {
    if forwarded.Some? && FirstField(forwarded.value) != "" then FirstField(forwarded.value) else address
  }

  // ---------------------------------------------------------------------------
  // Rate limiting

  /** The key of the rate-limit map: `${pollId}:${ip}`. */
  function RateLimitKey(pollId: PollId, ip: string): (k: string)
    ensures |k| == |pollId| + 1 + |ip| && k[|pollId|] == ':'
    ensures k[..|pollId|] == pollId && k[|pollId| + 1..] == ip
  {
    pollId + ":" + ip
  }

  /** Poll ids never contain a colon (nanoid's alphabet has none), so a key
      determines the poll and the address it was made from. */
  lemma RateLimitKeyInjective(p1: PollId, ip1: string, p2: PollId, ip2: string)
    requires forall i :: 0 <= i < |p1| ==> p1[i] != ':'
    requires forall i :: 0 <= i < |p2| ==> p2[i] != ':'
    requires RateLimitKey(p1, ip1) == RateLimitKey(p2, ip2)
    ensures p1 == p2 && ip1 == ip2
  {
    var k := RateLimitKey(p1, ip1);
    assert |p1| == |p2| by {
      assert k[|p1|] == ':' && k[|p2|] == ':';
    }
    assert p1 == k[..|p1|] == p2;
    assert ip1 == k[|p1| + 1..] == ip2;
  }

  /** Line 57: a vote is refused while the key's last accepted vote is less
      than a window old. A stored 0 is falsy and limits nothing. */
  predicate Limited(limits: map<string, int>, key: string, now: int) {
    key in limits && limits[key] != 0 && now - limits[key] < RateLimitWindow
  }

  /** `Math.ceil(x / d)` for a positive divisor, in exact integers. */
  function CeilDiv(x: int, d: int): (q: int)
    requires d > 0
    ensures (q - 1) * d < x <= q * d
  {
    (x + d - 1) / d
  }

  /** The whole seconds a refused voter is told to wait. */
  function RemainingSeconds(last: int, now: int): (s: int)
    ensures (s - 1) * 1000 < RateLimitWindow - (now - last) <= s * 1000
  {
    CeilDiv(RateLimitWindow - (now - last), 1000)
  }

  /** A refusal with the clock not running backwards reports 1 to 60 seconds. */
  lemma RemainingSecondsBounds(last: int, now: int)
    requires 0 <= now - last < RateLimitWindow
    ensures 1 <= RemainingSeconds(last, now) <= 60
  {
    var x := RateLimitWindow - (now - last);
    assert 0 < x <= 60 * 1000;
  }

  /** Recording a vote on one poll never limits a vote on another poll, from
      any address. */
  lemma OtherPollUnaffected(limits: map<string, int>, p1: PollId, ip1: string, t: int, p2: PollId, ip2: string, now: int)
    requires forall i :: 0 <= i < |p1| ==> p1[i] != ':'
    requires forall i :: 0 <= i < |p2| ==> p2[i] != ':'
    requires p1 != p2
    ensures Limited(limits[RateLimitKey(p1, ip1) := t], RateLimitKey(p2, ip2), now)
        <==> Limited(limits, RateLimitKey(p2, ip2), now)
  {
    if RateLimitKey(p1, ip1) == RateLimitKey(p2, ip2) {
      RateLimitKeyInjective(p1, ip1, p2, ip2);
    }
  }

  /** A vote just recorded at `t` limits the same key until `t + 60000`. */
  lemma RecordedVoteLimits(limits: map<string, int>, key: string, t: int, now: int)
    requires t != 0 && t <= now < t + RateLimitWindow
    ensures Limited(limits[key := t], key, now)
    ensures 1 <= RemainingSeconds(t, now) <= 60
  {
    RemainingSecondsBounds(t, now);
  }

  /** Line 97: an entry older than the window. */
  predicate Expired(stamp: int, now: int) {
    now - stamp > RateLimitWindow
  }

  /** The map the sweep at `now` leaves: every entry that has not expired. */
  function Swept(limits: map<string, int>, now: int): (m: map<string, int>)
    ensures forall k :: k in m <==> k in limits && !Expired(limits[k], now)
    ensures forall k :: k in m ==> m[k] == limits[k]
  {
    map k | k in limits && !Expired(limits[k], now) :: limits[k]
  }

  /** The sweep only frees memory: at the sweep's time or later, every key is
      limited after it exactly when it was limited before, with the same
      last-vote time. */
  lemma SweepKeepsDecisions(limits: map<string, int>, now: int, later: int, key: string)
    requires now <= later
    ensures Limited(Swept(limits, now), key, later) <==> Limited(limits, key, later)
    ensures Limited(limits, key, later) ==> Swept(limits, now)[key] == limits[key]
  {
  }

  // ---------------------------------------------------------------------------
  // The vote update

  /** Position of the first option with the given `_id`, or the length. */
  function IndexOfOption(opts: seq<PollOption>, oid: OptionId): (i: nat)
    ensures i <= |opts|
    ensures i < |opts| ==> opts[i].oid == oid
    ensures forall j :: 0 <= j < i ==> opts[j].oid != oid
  {
    if opts == [] then 0
    else if opts[0].oid == oid then 0
    else 1 + IndexOfOption(opts[1..], oid)
  }

  /** `after` is `before` with one more vote on option `i` and nothing else
      changed. */
  predicate AddedVoteAt(before: Poll, after: Poll, i: int) {
    && 0 <= i < |before.options|
    && after.id == before.id
    && after.question == before.question
    && after.createdAt == before.createdAt
    && |after.options| == |before.options|
    && after.options[i] == before.options[i].(voteCount := before.options[i].voteCount + 1)
    && forall j :: 0 <= j < |before.options| && j != i ==> after.options[j] == before.options[j]
  }

  /** `findOneAndUpdate({ id, 'options._id': optionId },
      { $inc: { 'options.$.voteCount': 1 } }, { new: true })`: the poll after
      one more vote on the first option with that `_id`, or nothing when the
      poll or the option does not exist. */
  function Increment(store: Store, pollId: PollId, optionId: OptionId): (r: Option<Poll>)
    ensures r.None? <==> pollId !in store || forall j :: 0 <= j < |store[pollId].options| ==> store[pollId].options[j].oid != optionId
    ensures r.Some? ==> pollId in store && exists i :: AddedVoteAt(store[pollId], r.value, i) && store[pollId].options[i].oid == optionId
  {
    if pollId !in store then None
    else
      var poll := store[pollId];
      var i := IndexOfOption(poll.options, optionId);
      if i == |poll.options| then None
      else
        var after := poll.(options := poll.options[i := poll.options[i].(voteCount := poll.options[i].voteCount + 1)]);
        assert AddedVoteAt(poll, after, i);
        Some(after)
  }

  /** In a stored poll the option ids are distinct, so the vote lands on the
      one option with that id and every other option keeps its count. */
  lemma IncrementHitsOnlyThatOption(store: Store, pollId: PollId, optionId: OptionId, j: nat)
    requires StoreInv(store)
    requires Increment(store, pollId, optionId).Some?
    requires j < |store[pollId].options|
    ensures var before := store[pollId].options[j];
            var after := Increment(store, pollId, optionId).value.options[j];
            && after.oid == before.oid && after.text == before.text
            && after.voteCount == before.voteCount + (if before.oid == optionId then 1 else 0)
  {
    var p := Increment(store, pollId, optionId).value;
    var i :| AddedVoteAt(store[pollId], p, i) && store[pollId].options[i].oid == optionId;
    assert DistinctOptionIds(store[pollId].options);
  }

  /** A successful vote adds exactly one to the poll's total. */
  lemma IncrementAddsOneVote(store: Store, pollId: PollId, optionId: OptionId)
    requires Increment(store, pollId, optionId).Some?
    ensures VoteTotal(Increment(store, pollId, optionId).value.options) == VoteTotal(store[pollId].options) + 1
  {
    var before := store[pollId];
    var after := Increment(store, pollId, optionId).value;
    var i :| AddedVoteAt(before, after, i) && before.options[i].oid == optionId;
    assert after.options == before.options[i := after.options[i]];
    VoteTotalReplace(before.options, i, after.options[i]);
  }

  /** Storing the updated poll keeps the store's invariant. */
  lemma IncrementPreservesStoreInv(store: Store, pollId: PollId, optionId: OptionId)
    requires StoreInv(store)
    requires Increment(store, pollId, optionId).Some?
    ensures StoreInv(store[pollId := Increment(store, pollId, optionId).value])
  {
    var before := store[pollId];
    var after := Increment(store, pollId, optionId).value;
    var i :| AddedVoteAt(before, after, i) && before.options[i].oid == optionId;
    assert StoredPoll(before);
    assert forall j :: 0 <= j < |after.options| ==> after.options[j].oid == before.options[j].oid;
  }

  // ---------------------------------------------------------------------------
  // Outcomes and what each connection receives

  /** How one `vote` event ends. */
  datatype VoteOutcome =
    | Denied(seconds: int)                              // rate limited
    | NotFound                                         // no such poll or option
    | Failed                                           // the store call threw
    | Updated(poll: Poll, recipients: set<ConnId>)     // stored and broadcast

  datatype ServerEvent = PollUpdated(poll: Poll) | Error(message: string)

  datatype Delivery = Delivery(to: ConnId, event: ServerEvent)

  /** The `error` event's text; the three causes read differently. */
  function ErrorMessage(o: VoteOutcome): (m: string)
    requires !o.Updated?
    ensures o.NotFound? ==> m == NotFoundError
    ensures o.Failed? ==> m == VoteError
    ensures o.Denied? ==> m != NotFoundError && m != VoteError
  {
    match o
    case Denied(s) => "Please wait " + Decimal.IntString(s) + " seconds before voting again on this poll."
    case NotFound => NotFoundError
    case Failed => VoteError
  }

  /** The events a vote sends: an error goes to the sender alone; an update
      goes to every member of the room and to nobody else. */
  function Deliveries(sender: ConnId, o: VoteOutcome): (ds: set<Delivery>)
    ensures !o.Updated? ==> ds == {Delivery(sender, Error(ErrorMessage(o)))}
    ensures forall d :: d in ds && d.event.Error? ==> d.to == sender
    ensures o.Updated? ==> forall d :: d in ds ==> d.event == PollUpdated(o.poll) && d.to in o.recipients
    ensures o.Updated? ==> forall c :: c in o.recipients ==> Delivery(c, PollUpdated(o.poll)) in ds
  {
    if o.Updated? then set c | c in o.recipients :: Delivery(c, PollUpdated(o.poll))
    else {Delivery(sender, Error(ErrorMessage(o)))}
  }

  /** The connections joined to a room. */
  function Members(rooms: map<PollId, set<ConnId>>, pollId: PollId): set<ConnId> {
    if pollId in rooms then rooms[pollId] else {}
  }

  // ---------------------------------------------------------------------------
  // The server state

  class PollServer {
    /** `voteRateLimit`: key `${pollId}:${ip}` to the time of the last accepted vote. */
    var rateLimit: map<string, int>
    /** The Poll collection. */
    var store: Store
    /** socket.io rooms: poll id to the connections that joined it. */
    var rooms: map<PollId, set<ConnId>>

    ghost predicate Valid()
      reads this
    {
      StoreInv(store)
    }

    constructor (polls: Store)
      requires StoreInv(polls)
      ensures Valid()
      ensures store == polls && rateLimit == map[] && rooms == map[]
    {
      store := polls;
      rateLimit := map[];
      rooms := map[];
    }

    /** `socket.on('joinPoll', pollId => socket.join(pollId))`. */
    method JoinPoll(conn: ConnId, pollId: PollId)
      requires Valid()
      modifies this`rooms
      ensures Valid()
      ensures rooms == old(rooms)[pollId := Members(old(rooms), pollId) + {conn}]
    {
      rooms := rooms[pollId := Members(rooms, pollId) + {conn}];
    }

    /** `socket.on('vote', ...)`. `forwarded` is the `x-forwarded-for`
        header, `address` the handshake address, `now` what `Date.now()`
        reads and `storeFails` whether the store call throws. */
    method Vote(conn: ConnId, pollId: PollId, optionId: OptionId, forwarded: Option<string>, address: string,
                now: int, storeFails: bool) returns (r: VoteOutcome)
      requires Valid()
      modifies this`store, this`rateLimit
      ensures Valid()
      // refused inside the window: the wait in whole seconds, and nothing changes
      ensures var key := RateLimitKey(pollId, ClientIp(forwarded, address));
        Limited(old(rateLimit), key, now) ==>
          r == Denied(RemainingSeconds(old(rateLimit)[key], now)) && store == old(store) && rateLimit == old(rateLimit)
      // the store call threw: nothing changes
      ensures var key := RateLimitKey(pollId, ClientIp(forwarded, address));
        !Limited(old(rateLimit), key, now) && storeFails ==>
          r == Failed && store == old(store) && rateLimit == old(rateLimit)
      // no such poll or option: nothing changes, in particular no limit is recorded
      ensures var key := RateLimitKey(pollId, ClientIp(forwarded, address));
        !Limited(old(rateLimit), key, now) && !storeFails && Increment(old(store), pollId, optionId).None? ==>
          r == NotFound && store == old(store) && rateLimit == old(rateLimit)
      // accepted: one more vote stored, the key stamped with `now`, the poll sent to the room
      ensures var key := RateLimitKey(pollId, ClientIp(forwarded, address));
        !Limited(old(rateLimit), key, now) && !storeFails && Increment(old(store), pollId, optionId).Some? ==>
          && r == Updated(Increment(old(store), pollId, optionId).value, Members(rooms, pollId))
          && store == old(store)[pollId := r.poll]
          && rateLimit == old(rateLimit)[key := now]
    {
      var ip := ClientIp(forwarded, address);
      var key := RateLimitKey(pollId, ip);
      if key in rateLimit && rateLimit[key] != 0 && now - rateLimit[key] < RateLimitWindow {
        var remaining := CeilDiv(RateLimitWindow - (now - rateLimit[key]), 1000);
        return Denied(remaining);
      }
      if storeFails {
        return Failed;
      }
      var updated := Increment(store, pollId, optionId);
      if updated.None? {
        return NotFound;
      }
      IncrementPreservesStoreInv(store, pollId, optionId);
      store := store[pollId := updated.value];
      rateLimit := rateLimit[key := now];
      r := Updated(updated.value, Members(rooms, pollId));
    }

    /** The `setInterval` cleanup: delete every entry older than the window. */
    method Sweep(now: int)
      requires Valid()
      modifies this`rateLimit
      ensures Valid()
      ensures rateLimit == Swept(old(rateLimit), now)
    {
      var pending := rateLimit.Keys;
      while pending != {}
        invariant pending <= old(rateLimit).Keys
        invariant forall k :: k in rateLimit <==> k in old(rateLimit) && (k in pending || !Expired(old(rateLimit)[k], now))
        invariant forall k :: k in rateLimit ==> rateLimit[k] == old(rateLimit)[k]
        decreases pending
      {
        var k :| k in pending;
        if now - rateLimit[k] > RateLimitWindow {
          rateLimit := rateLimit - {k};
        }
        pending := pending - {k};
      }
    }
  }

  /** The flow of backend/scripts/test-standalone.js: create a poll with
      options A and B, join its room, vote for A; the room sees A at one vote,
      and (a step the script does not take) a second vote from the same
      address a second later is refused. */
  method StandaloneVoteScenario(optionA: OptionId, optionB: OptionId)
    requires optionA != optionB
  {
    var token := "V1StGXR8_Z";
    var created := PollRoutes.Create(map[], PollRoutes.Body(PollRoutes.Str("Memory Test"),
      PollRoutes.Arr([PollRoutes.Str("A"), PollRoutes.Str("B")])), token, [optionA, optionB], 0);
    assert created.Created?;
    var server := new PollServer(created.store);
    server.JoinPoll("client", token);
    var first := server.Vote("client", token, optionA, None, "127.0.0.1", 1000, false);
    assert first.Updated? && first.poll.options[0].voteCount == 1 && "client" in first.recipients;
    var second := server.Vote("client", token, optionA, None, "127.0.0.1", 2000, false);
    assert second == Denied(59);
  }
}
