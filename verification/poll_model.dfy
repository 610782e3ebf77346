/** The Poll document of backend/models/Poll.js: an `id` and a `question`
    (both required, `id` unique), an ordered list of options each with a
    required `text` and a `voteCount` defaulting to 0, and `createdAt`.
    The store is the Poll collection, keyed by the unique `id`. */
module PollModel {

  type PollId = string
  /** The `_id` Mongoose gives each option subdocument. */
  type OptionId = string

  datatype PollOption = PollOption(oid: OptionId, text: string, voteCount: int)

  datatype Poll = Poll(id: PollId, question: string, options: seq<PollOption>, createdAt: int)

  type Store = map<PollId, Poll>

  /** Mongoose's `required` on a String path refuses a missing value and "". */
  predicate RequiredString(s: string) {
    s != ""
  }

  /** What the schema validator enforces before a document is saved. */
  predicate SchemaValid(p: Poll) {
    && RequiredString(p.id)
    && RequiredString(p.question)
    && forall i :: 0 <= i < |p.options| ==> RequiredString(p.options[i].text)
  }

  /** Subdocument `_id`s are fresh object ids, so no two options share one. */
  predicate DistinctOptionIds(opts: seq<PollOption>) {
    forall i, j :: 0 <= i < j < |opts| ==> opts[i].oid != opts[j].oid
  }

  predicate NonNegativeCounts(opts: seq<PollOption>) {
    forall i :: 0 <= i < |opts| ==> opts[i].voteCount >= 0
  }

  /** A stored poll: valid for the schema, with distinct option ids and counts
      that only ever grew from 0. */
  predicate StoredPoll(p: Poll) {
    SchemaValid(p) && DistinctOptionIds(p.options) && NonNegativeCounts(p.options)
  }

  /** The unique index on `id`: each poll is filed under its own id. */
  predicate StoreInv(store: Store) {
    forall k :: k in store ==> store[k].id == k && StoredPoll(store[k])
  }

  /** Sum of the options' vote counts, accumulated left to right as
      `options.reduce((sum, opt) => sum + opt.voteCount, 0)` does. */
  function VoteTotal(opts: seq<PollOption>): int {
    if opts == [] then 0 else VoteTotal(opts[..|opts| - 1]) + opts[|opts| - 1].voteCount
  }

  /** Replacing one option changes the total by exactly the change in that
      option's count. */
  lemma {:induction false} VoteTotalReplace(opts: seq<PollOption>, i: nat, o: PollOption)
    requires i < |opts|
    ensures VoteTotal(opts[i := o]) == VoteTotal(opts) - opts[i].voteCount + o.voteCount
  {
    var n := |opts|;
    var after := opts[i := o];
    if i < n - 1 {
      assert after[..n - 1] == opts[..n - 1][i := o];
      VoteTotalReplace(opts[..n - 1], i, o);
    } else {
      assert after[..n - 1] == opts[..n - 1];
    }
  }

  /** With non-negative counts, every count lies between 0 and the total. */
  lemma {:induction false} VoteTotalBounds(opts: seq<PollOption>, i: nat)
    requires NonNegativeCounts(opts)
    requires i < |opts|
    ensures 0 <= opts[i].voteCount <= VoteTotal(opts)
  {
    var n := |opts|;
    VoteTotalNonNegative(opts[..n - 1]);
    if i < n - 1 {
      VoteTotalBounds(opts[..n - 1], i);
    }
  }

  lemma {:induction false} VoteTotalNonNegative(opts: seq<PollOption>)
    requires NonNegativeCounts(opts)
    ensures VoteTotal(opts) >= 0
  {
    if opts != [] {
      VoteTotalNonNegative(opts[..|opts| - 1]);
    }
  }

  /** The same for all options at once. */
  lemma CountsWithinTotal(opts: seq<PollOption>)
    requires NonNegativeCounts(opts)
    ensures VoteTotal(opts) >= 0
    ensures forall i :: 0 <= i < |opts| ==> opts[i].voteCount <= VoteTotal(opts)
  {
    VoteTotalNonNegative(opts);
    forall i | 0 <= i < |opts| ensures opts[i].voteCount <= VoteTotal(opts) {
      VoteTotalBounds(opts, i);
    }
  }

  /** A poll whose options all have 0 votes has 0 votes in total. */
  lemma {:induction false} VoteTotalZero(opts: seq<PollOption>)
    requires forall i :: 0 <= i < |opts| ==> opts[i].voteCount == 0
    ensures VoteTotal(opts) == 0
  {
    if opts != [] {
      VoteTotalZero(opts[..|opts| - 1]);
    }
  }

  /** The unique index makes lookup by id unambiguous: two stored polls with
      the same id are the same entry. */
  lemma IdsAreUnique(store: Store, k1: PollId, k2: PollId)
    requires StoreInv(store)
    requires k1 in store && k2 in store
    requires store[k1].id == store[k2].id
    ensures k1 == k2 && store[k1] == store[k2]
  {
  }
}
