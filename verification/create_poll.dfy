/** The poll-creation form of frontend/src/components/CreatePoll.jsx: a
    question, an editable list of option texts that never has fewer than two
    entries, and the checks `handleSubmit` makes before it posts. Each
    handler computes the next form state from the current one. */
module CreatePoll {
  import opened Wrappers
  import opened PollModel
  import PollRoutes

  // ---------------------------------------------------------------------------
  // String.prototype.trim

  /** The white space and line terminators that `trim` removes, apart from
      the range U+2000 to U+200A. */
  const SpaceChars: set<char> := {
    '\t', '\n', '\U{B}', '\U{C}', '\r', ' ', '\U{A0}', '\U{1680}',
    '\U{2028}', '\U{2029}', '\U{202F}', '\U{205F}', '\U{3000}', '\U{FEFF}'
  }

  predicate IsSpace(c: char) {
    c in SpaceChars || '\U{2000}' <= c <= '\U{200A}'
  }

  predicate AllSpace(s: string) {
    forall i :: 0 <= i < |s| ==> IsSpace(s[i])
  }

  /** Neither begins nor ends with white space. */
  predicate Trimmed(s: string) {
    s == [] || (!IsSpace(s[0]) && !IsSpace(s[|s| - 1]))
  }

  /** How many characters of white space `s` begins with. */
  function LeadingSpaces(s: string): (n: nat)
    ensures n <= |s|
    ensures forall i :: 0 <= i < n ==> IsSpace(s[i])
    ensures n < |s| ==> !IsSpace(s[n])
  {
    if s == [] || !IsSpace(s[0]) then 0 else 1 + LeadingSpaces(s[1..])
  }

  /** Where the white space that `s` ends with begins. */
  function ContentEnd(s: string): (e: nat)
    ensures e <= |s|
    ensures forall i :: e <= i < |s| ==> IsSpace(s[i])
    ensures e > 0 ==> !IsSpace(s[e - 1])
  {
    if s == [] || !IsSpace(s[|s| - 1]) then |s| else ContentEnd(s[..|s| - 1])
  }

  /** `s.trim()`: the part of `s` between the white space it begins with and
      the white space it ends with. */
  function Trim(s: string): (r: string)
    ensures Trimmed(r)
    ensures var a := LeadingSpaces(s);
      && a + |r| <= |s|
      && r == s[a..a + |r|]
      && (forall i :: a + |r| <= i < |s| ==> IsSpace(s[i]))
    ensures r == [] <==> AllSpace(s)
  {
    var a := LeadingSpaces(s);
    if a == |s| then [] else s[a..ContentEnd(s)]
  }

  /** Trimming twice is trimming once. */
  lemma TrimIdempotent(s: string)
    ensures Trim(Trim(s)) == Trim(s)
  {
    TrimTrimmed(Trim(s));
  }

  /** A string without white space at either end is its own trim. */
  lemma TrimTrimmed(s: string)
    requires Trimmed(s)
    ensures Trim(s) == s
  {
    if s != [] {
      assert LeadingSpaces(s) == 0;
      assert ContentEnd(s) == |s|;
    }
  }

  // ---------------------------------------------------------------------------
  // The form state and its handlers

  datatype Form = Form(question: string, options: seq<string>, error: string, createdId: Option<PollId>)

  /** `useState('')`, `useState(['', ''])`, no error, nothing created. */
  function Initial(): (f: Form)
    ensures FormInv(f) && f.question == "" && f.error == "" && f.createdId == None
    ensures forall i :: 0 <= i < |f.options| ==> f.options[i] == ""
  {
    Form("", ["", ""], "", None)
  }

  /** The form always offers at least two option inputs. */
  predicate FormInv(f: Form) {
    |f.options| >= 2
  }

  /** The question input's `onChange`. */
  function SetQuestion(f: Form, q: string): (g: Form)
    ensures g.question == q
    ensures g.options == f.options && g.error == f.error && g.createdId == f.createdId
  {
    f.(question := q)
  }

  /** `handleOptionChange(index, value)`: a copy with entry `index` replaced.
      The inputs it is wired to exist only for indices in the list. */
  function ChangeOption(f: Form, index: nat, value: string): (g: Form)
    requires index < |f.options|
    ensures |g.options| == |f.options| && g.options[index] == value
    ensures forall j :: 0 <= j < |f.options| && j != index ==> g.options[j] == f.options[j]
    ensures g.question == f.question && g.error == f.error && g.createdId == f.createdId
  {
    f.(options := f.options[index := value])
  }

  /** `addOption`: one empty entry at the end. */
  function AddOption(f: Form): (g: Form)
    ensures |g.options| == |f.options| + 1 && g.options[..|f.options|] == f.options && g.options[|f.options|..] == [""]
    ensures g.question == f.question && g.error == f.error && g.createdId == f.createdId
  {
    f.(options := f.options + [""])
  }

  /** `s.filter((_, i) => i !== index)`. */
  function RemoveAt(s: seq<string>, index: nat): (r: seq<string>)
    ensures index < |s| ==> |r| == |s| - 1
    ensures index < |s| ==> forall j :: 0 <= j < |r| ==> r[j] == (if j < index then s[j] else s[j + 1])
    ensures index >= |s| ==> r == s
  {
    if index < |s| then s[..index] + s[index + 1..] else s
  }

  /** `removeOption(index)`: refused while only two entries remain. */
  function RemoveOption(f: Form, index: nat): (g: Form)
    ensures |f.options| <= 2 ==> g == f
    ensures |f.options| > 2 ==> g == f.(options := RemoveAt(f.options, index))
  {
    if |f.options| <= 2 then f else f.(options := RemoveAt(f.options, index))
  }

  /** "Create another poll": back to an empty question and two empty options. */
  function Reset(f: Form): (g: Form)
    ensures g.question == "" && g.options == ["", ""] && g.createdId == None
  {
    f.(createdId := None, question := "", options := ["", ""])
  }

  // ---------------------------------------------------------------------------
  // Submission

  /** `options.map(o => o.trim()).filter(o => o.length > 0)`. */
  function FilledOptions(options: seq<string>): (r: seq<string>)
    ensures |r| <= |options|
    ensures forall i :: 0 <= i < |r| ==> r[i] != "" && Trimmed(r[i])
  {
    if options == [] then []
    else
      var t := Trim(options[0]);
      (if t != "" then [t] else []) + FilledOptions(options[1..])
  }

  /** Non-empty trimmed options pass through unchanged, so filling is
      idempotent. */
  lemma {:induction false} FilledOptionsKeepsFilled(options: seq<string>)
    requires forall i :: 0 <= i < |options| ==> options[i] != "" && Trimmed(options[i])
    ensures FilledOptions(options) == options
  {
    if options != [] {
      TrimTrimmed(options[0]);
      FilledOptionsKeepsFilled(options[1..]);
    }
  }

  /** Each entry trimmed, in order. */
  function MapTrim(options: seq<string>): (r: seq<string>)
    ensures |r| == |options|
    ensures forall i :: 0 <= i < |options| ==> r[i] == Trim(options[i])
  {
    if options == [] then [] else [Trim(options[0])] + MapTrim(options[1..])
  }

  /** The submitted options are exactly the inputs that are not all white
      space, each trimmed, in their original order. */
  lemma {:induction false} FilledOptionsAreTrimmedNonBlank(options: seq<string>)
    ensures FilledOptions(options) == MapTrim(NonBlank(options))
  {
    if options != [] {
      FilledOptionsAreTrimmedNonBlank(options[1..]);
      var rest := NonBlank(options[1..]);
      if !AllSpace(options[0]) {
        assert ([options[0]] + rest)[1..] == rest;
      }
    }
  }

  lemma FilledOptionsIdempotent(options: seq<string>)
    ensures FilledOptions(FilledOptions(options)) == FilledOptions(options)
  {
    FilledOptionsKeepsFilled(FilledOptions(options));
  }

  /** An option counts exactly when it has a character other than white space. */
  lemma {:induction false} FilledOptionsCount(options: seq<string>)
    ensures |FilledOptions(options)| == |NonBlank(options)|
  {
    if options != [] {
      FilledOptionsCount(options[1..]);
    }
  }

  /** The entries that are not all white space. */
  function NonBlank(options: seq<string>): seq<string> {
    if options == [] then []
    else (if AllSpace(options[0]) then [] else [options[0]]) + NonBlank(options[1..])
  }

  datatype Payload = Payload(question: string, options: seq<string>)

  datatype Submission = Rejected(message: string) | Post(payload: Payload)

  const QuestionMissing := "Please enter a question."
  const TooFewOptions := "Please fill in at least 2 options."

  /** The checks of `handleSubmit`: the question first, then the count of
      filled options; otherwise the body it posts. */
  function Submit(f: Form): (s: Submission)
    ensures s == Rejected(QuestionMissing) <==> AllSpace(f.question)
    ensures s == Rejected(TooFewOptions) <==> !AllSpace(f.question) && |FilledOptions(f.options)| < 2
    ensures s.Rejected? ==> s.message == QuestionMissing || s.message == TooFewOptions
    ensures s.Post? ==>
      && s.payload.question != "" && Trimmed(s.payload.question)
      && |s.payload.options| >= 2
      && (forall i :: 0 <= i < |s.payload.options| ==> s.payload.options[i] != "" && Trimmed(s.payload.options[i]))
      && s.payload.options == FilledOptions(f.options)
      && s.payload.question == Trim(f.question)
  {
    var filled := FilledOptions(f.options);
    if Trim(f.question) == "" then Rejected(QuestionMissing)
    else if |filled| < 2 then Rejected(TooFewOptions)
    else Post(Payload(Trim(f.question), filled))
  }

  /** A body the form posts is one the route accepts: under a fresh id it
      creates a poll with exactly the posted texts and no votes. */
  lemma SubmittedPollIsCreated(f: Form, store: Store, token: PollId, oids: seq<OptionId>, now: int)
    requires Submit(f).Post?
    requires PollRoutes.IsNanoId(token) && token !in store
    requires |oids| == |Submit(f).payload.options| && forall i, j :: 0 <= i < j < |oids| ==> oids[i] != oids[j]
    ensures var p := Submit(f).payload;
      var r := PollRoutes.Create(store, PollRoutes.Body(PollRoutes.Str(p.question), PollRoutes.Arr(PollRoutes.Strings(p.options))), token, oids, now);
      && r.Created?
      && r.poll.question == p.question
      && |r.poll.options| == |p.options|
      && (forall i :: 0 <= i < |p.options| ==> r.poll.options[i].text == p.options[i])
      && VoteTotal(r.poll.options) == 0
  {
    var p := Submit(f).payload;
    PollRoutes.CreateFromStrings(store, p.question, p.options, token, oids, now);
  }

  // ---------------------------------------------------------------------------
  // The form as a state machine

  datatype Action =
    | TypeQuestion(q: string)
    | TypeOption(index: nat, value: string)
    | Add
    | Remove(index: nat)
    | SubmitForm
    | PollCreated(id: PollId)      // the POST answered with the new id
    | CreateAnother

  /** The next state, or `None` for an action the page cannot issue (an input
      for an option that is not on screen). */
  function Step(f: Form, a: Action): (r: Option<Form>)
    ensures r.None? <==> a.TypeOption? && a.index >= |f.options|
    ensures a.SubmitForm? ==> r == Some(f.(error := if Submit(f).Rejected? then Submit(f).message else ""))
  {
    match a
    case TypeQuestion(q) => Some(SetQuestion(f, q))
    case TypeOption(i, v) => if i < |f.options| then Some(ChangeOption(f, i, v)) else None
    case Add => Some(AddOption(f))
    case Remove(i) => Some(RemoveOption(f, i))
    case SubmitForm =>
      Some(f.(error := match Submit(f) case Rejected(m) => m case Post(_) => ""))
    case PollCreated(id) => Some(f.(createdId := Some(id)))
    case CreateAnother => Some(Reset(f))
  }

  function Run(f: Form, actions: seq<Action>): Option<Form>
    decreases |actions|
  {
    if actions == [] then Some(f)
    else match Step(f, actions[0])
      case None => None
      case Some(g) => Run(g, actions[1..])
  }

  /** No handler takes the list below two entries. */
  lemma StepKeepsTwoOptions(f: Form, a: Action)
    requires FormInv(f)
    ensures Step(f, a).Some? ==> FormInv(Step(f, a).value)
  {
  }

  /** From the initial form, every sequence of user actions leaves at least
      two option inputs. */
  lemma {:induction false} RunKeepsTwoOptions(f: Form, actions: seq<Action>)
    requires FormInv(f)
    ensures Run(f, actions).Some? ==> FormInv(Run(f, actions).value)
    decreases |actions|
  {
    if actions != [] {
      StepKeepsTwoOptions(f, actions[0]);
      if Step(f, actions[0]).Some? {
        RunKeepsTwoOptions(Step(f, actions[0]).value, actions[1..]);
      }
    }
  }

  lemma ReachableFormsHaveTwoOptions(actions: seq<Action>)
    ensures Run(Initial(), actions).Some? ==> |Run(Initial(), actions).value.options| >= 2
  {
    RunKeepsTwoOptions(Initial(), actions);
  }
}
