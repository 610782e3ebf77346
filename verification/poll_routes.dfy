/** The HTTP routes of backend/routes/pollRoutes.js: POST validates the
    request body and files a new poll; GET looks a poll up by id. The JSON
    body is modelled as a value, the Poll collection as the store it reads and
    the one it returns. */
module PollRoutes {
  import opened Wrappers
  import opened PollModel
  import Decimal

  /** A JSON value as the body parser hands it to the route (numbers are
      integers here); `Undefined` is a field the body does not have. An
      object is described only by its `_id` member when that is a string,
      the one member Mongoose's string cast looks at. */
  datatype Value =
    | Undefined | Null | Bool(b: bool) | Num(n: int) | Str(s: string) | Arr(items: seq<Value>)
    | Obj(stringId: Option<string>)

  /** JavaScript truthiness, as `!x` tests it. */
  predicate Truthy(v: Value) {
    match v
    case Undefined => false
    case Null => false
    case Bool(b) => b
    case Num(n) => n != 0
    case Str(s) => s != ""
    case Arr(_) => true
    case Obj(_) => true
  }

  datatype Body = Body(question: Value, options: Value)

  /** The default alphabet of nanoid. */
  predicate NanoIdChar(c: char) {
    'A' <= c <= 'Z' || 'a' <= c <= 'z' || '0' <= c <= '9' || c == '_' || c == '-'
  }

  /** What `nanoid(10)` returns: ten characters of its alphabet. */
  predicate IsNanoId(s: string) {
    |s| == 10 && forall i :: 0 <= i < |s| ==> NanoIdChar(s[i])
  }

  const BadRequestError := "Question and at least 2 options are required."
  const CreateError := "Server error creating poll."
  const NotFoundError := "Poll not found."

  datatype CreateResponse =
    | Created(id: PollId, poll: Poll, store: Store)   // 201 with { id }
    | BadRequest(error: string)                      // 400
    | CreateFailed(error: string)                    // 500: the save was refused

  datatype GetResponse =
    | Found(poll: Poll)                              // 200 with the poll
    | NotFound(error: string)                        // 404

  /** The guard of the POST route, in the order the route writes it. */
  predicate RequestRejected(body: Body)
    ensures RequestRejected(body) <==> !(Truthy(body.question) && body.options.Arr? && |body.options.items| >= 2)
  {
    !Truthy(body.question) || !Truthy(body.options) || !body.options.Arr? || |body.options.items| < 2
  }

  /** Mongoose's cast of a value to a String path: strings are kept, numbers
      and booleans are printed, an object stands for its `_id` when that is
      a non-empty string, `null`/`undefined` stay missing, and arrays and
      other objects are a cast error. `None` is a value the save refuses. */
  function CastString(v: Value): (r: Option<string>)
    ensures v.Str? ==> r == Some(v.s)
    ensures v.Obj? ==> (r.Some? <==> v.stringId.Some? && v.stringId.value != "")
    ensures v.Obj? && r.Some? ==> r.value == v.stringId.value
    ensures r.Some? ==> v.Str? || v.Num? || v.Bool? || v.Obj?
  {
    match v
    case Str(s) => Some(s)
    case Num(n) => Some(Decimal.IntString(n))
    case Bool(b) => Some(if b then "true" else "false")
    case Obj(Some(id)) => if id != "" then Some(id) else None
    case _ => None
  }

  /** Casts every option text; `None` when some element cannot be cast. */
  function CastTexts(items: seq<Value>): (r: Option<seq<string>>)
    ensures r.Some? ==> |r.value| == |items| && forall i :: 0 <= i < |items| ==> CastString(items[i]) == Some(r.value[i])
    ensures r.None? ==> exists i :: 0 <= i < |items| && CastString(items[i]).None?
  {
    if items == [] then Some([])
    else
      match (CastString(items[0]), CastTexts(items[1..]))
      case (Some(t), Some(ts)) => Some([t] + ts)
      case (None, _) => None
      case (_, None) => None
  }

  /** The document `new Poll({ id, question, options })` builds: the option
      texts in order, each with 0 votes and its own fresh `_id`. */
  function NewPoll(token: PollId, question: string, texts: seq<string>, oids: seq<OptionId>, now: int): (p: Poll)
    requires |oids| == |texts|
    ensures |p.options| == |texts|
    ensures forall i :: 0 <= i < |texts| ==> p.options[i] == PollOption(oids[i], texts[i], 0)
  {
    Poll(token, question, seq(|texts|, i requires 0 <= i < |texts| => PollOption(oids[i], texts[i], 0)), now)
  }

  /** POST /api/polls. `token` is what `nanoid(10)` returned and `oids` the
      `_id`s Mongoose gives the option subdocuments; `now` is the creation
      time that `createdAt` defaults to. */
  function Create(store: Store, body: Body, token: PollId, oids: seq<OptionId>, now: int): (r: CreateResponse)
    requires IsNanoId(token)
    requires body.options.Arr? ==> |oids| == |body.options.items|
    requires forall i, j :: 0 <= i < j < |oids| ==> oids[i] != oids[j]
    // 400 exactly when the question is falsy or there is no array of at least two options
    ensures r.BadRequest? <==> !(Truthy(body.question) && body.options.Arr? && |body.options.items| >= 2)
    ensures r.BadRequest? ==> r.error == BadRequestError
    ensures r.CreateFailed? ==> r.error == CreateError
    // a new poll is filed under its fresh id and nothing else in the store changes
    ensures r.Created? ==> r.id == token == r.poll.id && token !in store && r.store == store[token := r.poll]
    ensures r.Created? ==> r.poll.createdAt == now && CastString(body.question) == Some(r.poll.question)
    // option i carries the text of input i and starts at 0 votes
    ensures r.Created? ==>
      && |r.poll.options| == |body.options.items|
      && forall i :: 0 <= i < |r.poll.options| ==>
           CastString(body.options.items[i]) == Some(r.poll.options[i].text) && r.poll.options[i].voteCount == 0
    ensures r.Created? ==> StoredPoll(r.poll)
    ensures StoreInv(store) && r.Created? ==> StoreInv(r.store)
  {
    if RequestRejected(body) then BadRequest(BadRequestError)
    else
      var question := CastString(body.question);
      var texts := CastTexts(body.options.items);
      if question.None? || texts.None? then CreateFailed(CreateError)
      else
        var poll := NewPoll(token, question.value, texts.value, oids, now);
        // the save runs the schema validators, then the unique index on `id`
        if !SchemaValid(poll) || token in store then CreateFailed(CreateError)
        else Created(token, poll, store[token := poll])
  }

  /** A body of strings the route accepts: a non-empty question and at least
      two non-empty option texts. Under a fresh token it creates the poll
      with exactly those texts, in that order, and no votes. */
  lemma CreateFromStrings(store: Store, question: string, texts: seq<string>, token: PollId, oids: seq<OptionId>, now: int)
    requires IsNanoId(token) && token !in store
    requires question != "" && |texts| >= 2 && forall i :: 0 <= i < |texts| ==> texts[i] != ""
    requires |oids| == |texts| && forall i, j :: 0 <= i < j < |oids| ==> oids[i] != oids[j]
    ensures var r := Create(store, Body(Str(question), Arr(Strings(texts))), token, oids, now);
      && r.Created?
      && r.poll.question == question
      && |r.poll.options| == |texts|
      && (forall i :: 0 <= i < |texts| ==> r.poll.options[i].text == texts[i])
      && VoteTotal(r.poll.options) == 0
  {
    var items := Strings(texts);
    CastStrings(texts);
    var poll := NewPoll(token, question, texts, oids, now);
    assert SchemaValid(poll);
    assert Create(store, Body(Str(question), Arr(items)), token, oids, now) == Created(token, poll, store[token := poll]);
    VoteTotalZero(poll.options);
  }

  /** The JSON array of the given strings. */
  function Strings(texts: seq<string>): (items: seq<Value>)
    ensures |items| == |texts| && forall i :: 0 <= i < |texts| ==> items[i] == Str(texts[i])
  {
    seq(|texts|, i requires 0 <= i < |texts| => Str(texts[i]))
  }

  lemma {:induction false} CastStrings(texts: seq<string>)
    ensures CastTexts(Strings(texts)) == Some(texts)
  {
    if texts != [] {
      var items := Strings(texts);
      assert items[1..] == Strings(texts[1..]);
      CastStrings(texts[1..]);
      assert CastString(items[0]) == Some(texts[0]);
      assert [texts[0]] + texts[1..] == texts;
    }
  }

  /** GET /api/polls/:id. */
  function Get(store: Store, id: PollId): (r: GetResponse)
    requires StoreInv(store)
    // 404 exactly when no stored poll has that id
    ensures r.NotFound? <==> forall k :: k in store ==> store[k].id != id
    ensures r.NotFound? ==> r.error == NotFoundError
    // otherwise the one poll with that id, unchanged
    ensures r.Found? ==> r.poll.id == id && r.poll in store.Values
    ensures r.Found? ==> forall k :: k in store && store[k].id == id ==> store[k] == r.poll
  {
    if id in store then Found(store[id]) else NotFound(NotFoundError)
  }
}
