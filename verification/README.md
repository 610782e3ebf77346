# Realtime poll rooms: a Dafny model

A user creates a multiple-choice poll and shares its link. People who open the link join a room tied to the poll's id and vote. Everyone in the room sees the counts change live.

This project models that behaviour and proves properties of it:

- **Server vote handler** (`Server`, backend/server.js). `PollServer` holds three things: the rate-limit map from `${pollId}:${ip}` to the time of the last accepted vote, the Poll collection, and the socket.io rooms.
  - `Vote` refuses a vote when the key's last vote is less than 60 000 ms old. The refusal reports the remaining whole seconds, rounded up.
  - Otherwise it adds one vote to the matching option. It stamps the key only after the store update succeeds, and sends the updated poll to the room.
  - `JoinPoll` adds a connection to a room. `Sweep` deletes expired entries, with a loop like the source's.
  - The client address comes from `x-forwarded-for` or the handshake (`ClientIp`).
- **Poll routes** (`PollRoutes`, backend/routes/pollRoutes.js).
  - POST checks the JSON body and builds the new document. Mongoose then casts it and applies the schema's `required` rules from backend/models/Poll.js. The poll is filed under its fresh nanoid.
  - GET answers 404 or returns the stored poll.
- **Poll document** (`PollModel`, backend/models/Poll.js). The poll and option records, the schema rules, the unique-id store invariant and the vote total.
- **Creation form** (`CreatePoll`, frontend/src/components/CreatePoll.jsx). The handlers over the option list, the submit checks, and a state machine over user actions. It is proved that no sequence of actions leaves fewer than two options.
- **Voting page** (`VotingRoom`, frontend/src/components/VotingRoom.jsx).
  - The total and the per-option percentage.
  - `HandleVote`'s one-vote guard, and the voted-poll list in local storage.

Some behaviour of the code is modelled as written:

- The handler tests `lastVoteTime &&`, so a stored timestamp of 0 limits nothing (`Limited`).
- The POST guard accepts an option text of `""`. The schema's `required` rule then rejects the save, so the answer is 500, not 400 (`Create`).
- Rate limits are keyed by address only. Counters are incremented blindly. There is no voter identity, no voter ledger and no vote switching, so the model has none.

The clock, the id generators and store failures are parameters:

- `now` stands for `Date.now()`.
- `token` and `oids` stand for what nanoid and Mongoose's ObjectId generation return.
- `storeFails` says that the store call threw.

## Model

| member | source | states |
|---|---|---|
| `PollModel.VoteTotal` | frontend/src/components/VotingRoom.jsx:79 | the counts summed left to right from 0, as the `reduce` does; its properties are the lemmas below |
| `PollModel.SchemaValid` | backend/models/Poll.js:4-22 | the `required` rules: id, question and every option text are non-empty strings |
| `PollModel.StoreInv` | backend/models/Poll.js:4-22 | every stored poll is filed under its own id and meets the schema rules, with distinct option ids and non-negative counts |
| `PollModel.VoteTotalReplace` | frontend/src/components/VotingRoom.jsx:79 | replacing one option changes the summed total by exactly the change in that option's count |
| `PollModel.CountsWithinTotal` | frontend/src/components/VotingRoom.jsx:79 | with non-negative counts the total is non-negative and at least each option's count |
| `PollModel.VoteTotalZero` | backend/routes/pollRoutes.js:18 | options that all have 0 votes total 0 |
| `PollModel.IdsAreUnique` | backend/models/Poll.js:4-8 | under the unique index two stored polls with the same id are the same entry |
| `PollRoutes.Truthy` | backend/routes/pollRoutes.js:10 | JavaScript truthiness of a JSON value, as `!x` tests it: undefined, null, false, 0 and "" are falsy |
| `PollRoutes.RequestRejected` | backend/routes/pollRoutes.js:10 | the guard rejects exactly when the question is falsy or the options are not an array of at least 2; the `!options` test adds nothing to the array test |
| `PollRoutes.CastString` | backend/models/Poll.js:5-12 | a string value is stored as given; an object casts to its `_id` exactly when that is a non-empty string; only strings, numbers, booleans and such objects cast to a String path |
| `PollRoutes.CastTexts` | backend/models/Poll.js:13-22 | the texts are cast element by element, in order; the cast fails exactly when some element fails |
| `PollRoutes.NewPoll` | backend/routes/pollRoutes.js:15-19 | the new document has one option per text, in order, each with its own fresh id and 0 votes |
| `PollRoutes.Create` | backend/routes/pollRoutes.js:7-27 | 400 exactly when the question is falsy or options is not an array of at least 2; on 201 the poll is filed under the fresh token, which is returned, the rest of the store is unchanged, option i carries input i's text with 0 votes, createdAt is now, and the store invariant is kept |
| `PollRoutes.CreateFromStrings` | backend/routes/pollRoutes.js:10-22 | a non-empty question and at least two non-empty texts under a fresh token always create a poll with exactly those texts and total 0 |
| `PollRoutes.Get` | backend/routes/pollRoutes.js:30-45 | 404 exactly when no stored poll has the id; otherwise the one poll with that id, unchanged |
| `Server.FirstField` | backend/server.js:49 | the result is a comma-free prefix of the header followed by a comma or the end |
| `Server.ClientIp` | backend/server.js:49-50 | the first field of `x-forwarded-for` when it is non-empty, else the handshake address |
| `Server.RateLimitKey` | backend/server.js:51 | the key is the poll id, one colon, then the address, with both parts recoverable from their positions |
| `Server.RateLimitKeyInjective` | backend/server.js:51 | for colon-free poll ids the key determines both the poll and the address |
| `Server.Limited` | backend/server.js:54-57 | a vote is refused exactly when the key has a non-zero last-vote time less than 60000 ms before now; its behaviour is stated by the lemmas below |
| `Server.CeilDiv` | backend/server.js:58 | the result is the exact integer ceiling of the quotient |
| `Server.RemainingSeconds` | backend/server.js:58 | the remaining milliseconds of the window rounded up to whole seconds: s - 1 seconds fall short of them and s seconds cover them |
| `Server.RemainingSecondsBounds` | backend/server.js:57-58 | a refusal with 0 <= elapsed < 60000 reports between 1 and 60 seconds |
| `Server.OtherPollUnaffected` | backend/server.js:51-78 | stamping a vote on one poll changes no limit decision on another poll, from any address |
| `Server.RecordedVoteLimits` | backend/server.js:57-78 | after a vote is stamped at t, the same key is refused until t + 60000, with 1 to 60 seconds reported |
| `Server.Expired` | backend/server.js:97 | an entry has expired when more than 60000 ms have passed since its timestamp |
| `Server.Swept` | backend/server.js:96-99 | a key survives the sweep exactly when it was present and has not expired, and it keeps its timestamp |
| `Server.SweepKeepsDecisions` | backend/server.js:94-101 | at the sweep's time or later, every key is limited after the sweep exactly when it was before, with the same timestamp |
| `Server.IndexOfOption` | backend/server.js:67 | the position of the first option with that id, or the length when there is none |
| `Server.Increment` | backend/server.js:66-70 | no result exactly when the poll or the option does not exist; otherwise the poll with one more vote on an option with that id and nothing else changed |
| `Server.IncrementHitsOnlyThatOption` | backend/server.js:66-70 | in a stored poll the option with that id gains exactly one vote and every other option keeps its count |
| `Server.IncrementAddsOneVote` | backend/server.js:68 | a successful vote raises the poll's total by exactly 1 |
| `Server.IncrementPreservesStoreInv` | backend/server.js:66-70 | writing the updated poll back keeps the store invariant |
| `Server.ErrorMessage` | backend/server.js:59-84 | "Poll or option not found" for a missing poll or option, "Error recording vote" for a store failure, and a wait message that differs from both for a refusal |
| `Server.Deliveries` | backend/server.js:59-84 | an error goes only to the sender; an update goes to exactly the members of the room |
| `Server.PollServer.constructor` | backend/server.js:34-35 | the server starts with an empty rate-limit map and no rooms |
| `Server.PollServer.JoinPoll` | backend/server.js:41-44 | the connection joins the room of that poll id and nothing else changes |
| `Server.PollServer.Vote` | backend/server.js:46-86 | refused: the wait in seconds with nothing changed; store failure or no such poll/option: nothing changed and no limit recorded; accepted: one more vote stored, the key stamped with now, and the poll sent to the room |
| `Server.PollServer.Sweep` | backend/server.js:93-101 | the map afterwards holds exactly the entries that are not older than the window |
| `CreatePoll.Trim` | frontend/src/components/CreatePoll.jsx:31 | the result is the middle of the input with white space cut from both ends; it is empty exactly when the input is all white space |
| `CreatePoll.TrimIdempotent` | frontend/src/components/CreatePoll.jsx:31 | trimming twice gives the same as trimming once |
| `CreatePoll.Initial` | frontend/src/components/CreatePoll.jsx:7-11 | an empty question, two empty options, no error and no created poll, so the form starts with its invariant |
| `CreatePoll.SetQuestion` | frontend/src/components/CreatePoll.jsx:127 | the question becomes the typed text and the rest of the form is unchanged |
| `CreatePoll.ChangeOption` | frontend/src/components/CreatePoll.jsx:14-18 | same length, entry index replaced, every other entry and the rest of the form unchanged |
| `CreatePoll.AddOption` | frontend/src/components/CreatePoll.jsx:20 | exactly one empty entry appended |
| `CreatePoll.RemoveAt` | frontend/src/components/CreatePoll.jsx:24 | removes exactly entry index and keeps the order of the others; an index past the end changes nothing |
| `CreatePoll.RemoveOption` | frontend/src/components/CreatePoll.jsx:22-25 | a no-op while at most two options remain, else the removal |
| `CreatePoll.Reset` | frontend/src/components/CreatePoll.jsx:98 | an empty question, two empty options and no created poll |
| `CreatePoll.FilledOptions` | frontend/src/components/CreatePoll.jsx:31 | every submitted option is non-empty and trimmed, and there are no more of them than inputs |
| `CreatePoll.FilledOptionsAreTrimmedNonBlank` | frontend/src/components/CreatePoll.jsx:31 | the submitted options are exactly the inputs that are not all white space, each trimmed, in their original order |
| `CreatePoll.FilledOptionsKeepsFilled` | frontend/src/components/CreatePoll.jsx:31 | options that are already trimmed and non-empty pass through unchanged, in order |
| `CreatePoll.FilledOptionsIdempotent` | frontend/src/components/CreatePoll.jsx:31 | filling the filled options again changes nothing |
| `CreatePoll.FilledOptionsCount` | frontend/src/components/CreatePoll.jsx:31 | an input counts exactly when it has a character that is not white space |
| `CreatePoll.Submit` | frontend/src/components/CreatePoll.jsx:27-46 | "Please enter a question." exactly when the question is all white space, checked first; "Please fill in at least 2 options." exactly when fewer than 2 options are filled; otherwise the trimmed question and the filled options |
| `CreatePoll.SubmittedPollIsCreated` | frontend/src/components/CreatePoll.jsx:41-46 | a body the form posts is one the route accepts, and it creates a poll with exactly the posted texts and no votes |
| `CreatePoll.Step` | frontend/src/components/CreatePoll.jsx:14-47 | every user action has a next form, except typing into an option input that does not exist; a submit sets the error to the rejection message, or clears it when the body is posted |
| `CreatePoll.Run` | frontend/src/components/CreatePoll.jsx:14-47 | the actions applied one after another from a form; its behaviour is stated by the two lemmas below |
| `CreatePoll.StepKeepsTwoOptions` | frontend/src/components/CreatePoll.jsx:14-25 | no single handler takes the list below two entries |
| `CreatePoll.RunKeepsTwoOptions` | frontend/src/components/CreatePoll.jsx:14-25 | no sequence of handlers takes the list below two entries |
| `CreatePoll.ReachableFormsHaveTwoOptions` | frontend/src/components/CreatePoll.jsx:8 | every form reachable from the initial two empty options has at least two options |
| `VotingRoom.TotalVotes` | frontend/src/components/VotingRoom.jsx:79 | 0 when no poll is loaded, else exactly the sum `VoteTotal` of the counts, which with non-negative counts is at least every option's count |
| `VotingRoom.RoundedQuotient` | frontend/src/components/VotingRoom.jsx:138 | the nearest integer to the exact quotient, halves rounded up |
| `VotingRoom.Percentage` | frontend/src/components/VotingRoom.jsx:138 | 0 when the total is 0, else the rounded share of the total in percent; its bounds are the lemmas below |
| `VotingRoom.PercentageBounds` | frontend/src/components/VotingRoom.jsx:138 | 0 when the total is 0, and between 0 and 100 whenever 0 <= count <= total |
| `VotingRoom.PercentageExtremes` | frontend/src/components/VotingRoom.jsx:138 | all of the votes show as 100 percent and none as 0 |
| `VotingRoom.OptionPercentagesBounded` | frontend/src/components/VotingRoom.jsx:137-138 | every option of a loaded poll shows 0 to 100 percent |
| `VotingRoom.AppendIfAbsent` | frontend/src/components/VotingRoom.jsx:71-75 | the list then holds the poll id, keeps its old entries as a prefix, and gains the id only if it was absent |
| `VotingRoom.AppendIfAbsentNoDuplicates` | frontend/src/components/VotingRoom.jsx:71-75 | a duplicate-free list stays duplicate-free |
| `VotingRoom.VotingRoomView.constructor` | frontend/src/components/VotingRoom.jsx:11-20 | after mount, hasVoted holds exactly when the stored list contains the poll id |
| `VotingRoom.VotingRoomView.Connect` | frontend/src/components/VotingRoom.jsx:42-47 | the socket is set and a joinPoll for this poll is emitted |
| `VotingRoom.VotingRoomView.HandleVote` | frontend/src/components/VotingRoom.jsx:64-76 | nothing happens when the page has already voted or has no socket; otherwise one vote is emitted, hasVoted is set and the poll id is stored once; the page never sends more than one vote |

## Left out

- The socket.io transport is left out: connection and disconnect events, and actual delivery by `io.to(...).emit`. Rooms are a map of connection sets, and a broadcast is the set of recipients in the outcome.
- MongoDB I/O and the connection setup are left out. The store is an in-memory map with the semantics of the update query.
- Concurrency is left out. The race between the limit check (server.js:57) and the stamp (server.js:78) across the `await` is not modelled. Votes run one at a time.
- The `setInterval` timer and `Date.now` are parameters, so the sweep runs only when `Sweep` is called.
- The `catch` branch of the vote handler is entered only through the `storeFails` parameter. The reasons it can throw are foreign, for example a malformed option id that cannot be cast.
- Poll and option ids in vote events are modelled as strings. Other JSON shapes for them are not modelled, and neither is a header given as an array.
- A JSON object is modelled only by its `_id` member when that is a string, following the string cast of Mongoose (Mongoose is not part of this model). Mongoose's cast of other objects with their own `toString` does not arise from a parsed JSON body.
- JSON numbers are integers in the model. Mongoose's casts of fractional numbers are left out.
- nanoid's randomness and ObjectId generation are oracles: the `token` and `oids` parameters, with the alphabet, length and distinctness those generators guarantee.
- The 500 answer of GET (a failing database) is left out, along with Express status-code plumbing, dotenv and CORS.
- On the form, these are left out: the POST by axios and its error message, the loading flag, the clipboard and navigation. A successful answer is the `PollCreated` action.
- On the voting page, these are left out: fetching the poll, the `pollUpdated` handler, the error views, JSON parsing of local storage, and other tabs writing the same storage key.
- All JSX rendering and App.jsx routing are left out.
- VotingRoom.RoundedQuotient: it rounds the exact rational quotient. JavaScript rounds the floating-point value `(c / t) * 100`, which can differ at exact halves, so only the bounds carry over exactly.
