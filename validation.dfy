/** The check `POST /survey` runs on a request before it writes anything:
    an ordered list of error messages, empty when the survey may be stored. */
module Validation {
  import opened Wrappers
  import Dates

  // ---------------------------------------------------------------------------
  // The request

  /** One element of the payload's `questions` list: what `question.get('question')`
      holds under 'body' and 'note' (None when the key is absent or null). */
  datatype QuestionItem = QuestionItem(body: Option<string>, note: Option<string>)

  /** The JSON object sent as the request body; each field is what
      `survey_data.get(key)` returns. */
  datatype Payload = Payload(
    name: Option<string>,
    description: Option<string>,
    startDate: Option<string>,
    endDate: Option<string>,
    questions: Option<seq<QuestionItem>>)

  /** `request.is_json` is false for NonJson. */
  datatype Request = NonJson | JsonBody(payload: Payload)

  // ---------------------------------------------------------------------------
  // The messages, in the order the rules are checked

  datatype Message =
    | NotJson
    | NameRequired
    | StartRequired
    | StartFormat
    | EndFormat
    | QuestionsRequired
    | BodyRequired

  /** The wording of each message, as the response carries it. */
  function Text(m: Message): string {
    match m
    case NotJson => "You have to send a valid JSON"
    case NameRequired => "You must provide a survey name"
    case StartRequired => "You must provide a start_date"
    case StartFormat => "Incorrect start_date format, should be (dd/mm/yyyy HH:MM)"
    case EndFormat => "Incorrect end_date format, should be (dd/mm/yyyy HH:MM)"
    case QuestionsRequired => "You must provide at least one question"
    case BodyRequired => "You must provide a question body"
  }

  /** The messages as the response lists them. */
  function Texts(ms: seq<Message>): (r: seq<string>)
    ensures |r| == |ms| && forall i :: 0 <= i < |ms| ==> r[i] == Text(ms[i])
  {
    if ms == [] then [] else [Text(ms[0])] + Texts(ms[1..])
  }

  /** No two messages read the same, so the response tells the rules apart. */
  lemma TextDistinct(m1: Message, m2: Message)
    ensures Text(m1) == Text(m2) <==> m1 == m2
  {
    TextLength(m1);
    TextLength(m2);
  }

  /** The lengths of the wordings; the two of equal length differ in their fifth letter. */
  lemma TextLength(m: Message)
    ensures |Text(m)| == match m
      case NotJson => 29
      case NameRequired => 30
      case StartRequired => 29
      case StartFormat => 57
      case EndFormat => 55
      case QuestionsRequired => 38
      case BodyRequired => 32
    ensures m == NotJson ==> Text(m)[4] == 'h'
    ensures m == StartRequired ==> Text(m)[4] == 'm'
  {
    match m
    case NotJson => assert Text(m)[4] == 'h';
    case StartRequired => assert Text(m)[4] == 'm';
    case _ =>
  }

  /** Python truthiness of a string field: present and not empty. */
  predicate Present(o: Option<string>) {
    o.Some? && o.value != ""
  }

  /** Truthiness of the questions field: present and not the empty list. */
  predicate HasQuestions(p: Payload) {
    p.questions.Some? && p.questions.value != []
  }

  /** The questions of a payload, none when the field is missing. */
  function QuestionList(p: Payload): seq<QuestionItem> {
    if p.questions.Some? then p.questions.value else []
  }

  // ---------------------------------------------------------------------------
  // The rules, one error list each

  function NameErrors(p: Payload): seq<Message> {
    if Present(p.name) then [] else [NameRequired]
  }

  function StartErrors(p: Payload): seq<Message> {
    if !Present(p.startDate) then [StartRequired]
    else if Dates.Parse(p.startDate.value).None? then [StartFormat]
    else []
  }

  function EndErrors(p: Payload): seq<Message> {
    if Present(p.endDate) && Dates.Parse(p.endDate.value).None? then [EndFormat] else []
  }

  /** One body error per question without a body, in question order. */
  function BodyErrors(qs: seq<QuestionItem>): seq<Message> {
    if qs == [] then []
    else BodyErrors(qs[..|qs| - 1]) + (if Present(qs[|qs| - 1].body) then [] else [BodyRequired])
  }

  function QuestionErrors(p: Payload): seq<Message> {
    if HasQuestions(p) then BodyErrors(p.questions.value) else [QuestionsRequired]
  }

  /** Everything `validate_request` reports, rule by rule. */
  function Errors(req: Request): seq<Message> {
    match req
    case NonJson => [NotJson]
    case JsonBody(p) => NameErrors(p) + StartErrors(p) + EndErrors(p) + QuestionErrors(p)
  }

  // ---------------------------------------------------------------------------
  // The validator

  /** `validate_request(request)`: appends one message per broken rule. */
  method ValidateRequest(req: Request) returns (errors: seq<Message>)
    ensures errors == Errors(req)
  {
    errors := [];
    if !req.JsonBody? {
      errors := errors + [NotJson];
      return;
    }
    var data := req.payload;

    var name := data.name;
    if !Present(name) {
      errors := errors + [NameRequired];
    }
    assert errors == NameErrors(data);

    var startDate := data.startDate;
    if !Present(startDate) {
      errors := errors + [StartRequired];
    } else if Dates.Parse(startDate.value).None? {
      errors := errors + [StartFormat];
    }
    assert errors == NameErrors(data) + StartErrors(data);

    var endDate := data.endDate;
    if Present(endDate) {
      if Dates.Parse(endDate.value).None? {
        errors := errors + [EndFormat];
      }
    }
    assert errors == NameErrors(data) + StartErrors(data) + EndErrors(data);

    var questions := data.questions;
    if questions.None? || questions.value == [] {
      errors := errors + [QuestionsRequired];
    } else {
      errors := AppendBodyErrors(errors, questions.value);
    }
  }

  /** The loop over the questions: one body message appended per question
      whose body is missing or empty. */
  method AppendBodyErrors(before: seq<Message>, qs: seq<QuestionItem>) returns (errors: seq<Message>)
    ensures errors == before + BodyErrors(qs)
  {
    errors := before;
    for k := 0 to |qs|
      invariant errors == before + BodyErrors(qs[..k])
    {
      assert qs[..k + 1][..k] == qs[..k];
      if !Present(qs[k].body) {
        errors := errors + [BodyRequired];
      }
    }
    assert qs[..|qs|] == qs;
  }

  // ---------------------------------------------------------------------------
  // What the list says

  /** A request that is not JSON gets exactly the one message. */
  lemma NonJsonRejected()
    ensures Errors(NonJson) == [NotJson]
    ensures forall p :: NotJson !in Errors(JsonBody(p))
  {
    forall p ensures NotJson !in Errors(JsonBody(p)) {
      BodyErrorsOnly(QuestionList(p));
    }
  }

  /** Every element of the body-error list is the body message, and there
      are no more of them than questions. */
  lemma {:induction false} BodyErrorsOnly(qs: seq<QuestionItem>)
    ensures |BodyErrors(qs)| <= |qs|
    ensures forall e :: e in BodyErrors(qs) ==> e == BodyRequired
  {
    if qs != [] {
      BodyErrorsOnly(qs[..|qs| - 1]);
    }
  }

  /** The questions that lack a body, by position. */
  function MissingBodies(qs: seq<QuestionItem>): set<nat> {
    set i: nat | i < |qs| && !Present(qs[i].body)
  }

  /** There is one body message per question without a body. */
  lemma {:induction false} BodyErrorsCount(qs: seq<QuestionItem>)
    ensures |BodyErrors(qs)| == |MissingBodies(qs)|
  {
    if qs != [] {
      var n := |qs| - 1;
      var init := qs[..n];
      BodyErrorsCount(init);
      assert forall i: nat :: i < n ==> init[i] == qs[i];
      if Present(qs[n].body) {
        assert MissingBodies(qs) == MissingBodies(init);
      } else {
        assert MissingBodies(qs) == MissingBodies(init) + {n};
        assert n !in MissingBodies(init);
      }
    }
  }

  /** No body message exactly when every question has a body. */
  lemma {:induction false} BodyErrorsEmpty(qs: seq<QuestionItem>)
    ensures BodyErrors(qs) == [] <==> forall i :: 0 <= i < |qs| ==> Present(qs[i].body)
  {
    if qs != [] {
      var n := |qs| - 1;
      BodyErrorsEmpty(qs[..n]);
      assert forall i :: 0 <= i < n ==> qs[..n][i] == qs[i];
    }
  }

  /** The name rule: the name message appears exactly when the name is
      missing or empty, and at most once. */
  lemma NameRule(p: Payload)
    ensures NameRequired in Errors(JsonBody(p)) <==> !Present(p.name)
    ensures multiset(Errors(JsonBody(p)))[NameRequired] == if Present(p.name) then 0 else 1
  {
    Tally(p, NameRequired);
  }

  /** The start-date rule: "required" exactly when the field is missing or
      empty, "format" exactly when it is given but does not parse, and
      never both. */
  lemma StartRule(p: Payload)
    ensures StartRequired in Errors(JsonBody(p)) <==> !Present(p.startDate)
    ensures StartFormat in Errors(JsonBody(p)) <==>
      Present(p.startDate) && Dates.Parse(p.startDate.value).None?
    ensures !(StartRequired in Errors(JsonBody(p)) && StartFormat in Errors(JsonBody(p)))
  {
    Tally(p, StartRequired);
    Tally(p, StartFormat);
  }

  /** The end-date rule: a missing or empty end date is never an error;
      a given one is an error exactly when it does not parse. */
  lemma EndRule(p: Payload)
    ensures EndFormat in Errors(JsonBody(p)) <==>
      Present(p.endDate) && Dates.Parse(p.endDate.value).None?
  {
    Tally(p, EndFormat);
  }

  /** How often the name and date rules report message `m`, which the
      questions rule never reports. */
  lemma Tally(p: Payload, m: Message)
    requires m != QuestionsRequired && m != BodyRequired
    ensures multiset(Errors(JsonBody(p)))[m] ==
      (if m == NameRequired && !Present(p.name) then 1 else 0)
      + (if m == StartRequired && !Present(p.startDate) then 1 else 0)
      + (if m == StartFormat && Present(p.startDate) && Dates.Parse(p.startDate.value).None? then 1 else 0)
      + (if m == EndFormat && Present(p.endDate) && Dates.Parse(p.endDate.value).None? then 1 else 0)
    ensures m in Errors(JsonBody(p)) <==> multiset(Errors(JsonBody(p)))[m] > 0
  {
    NotQuestionError(p, m);
    Parts(NameErrors(p), StartErrors(p), EndErrors(p), QuestionErrors(p), m);
    Occurring(m, NameErrors(p));
    Occurring(m, StartErrors(p));
    Occurring(m, EndErrors(p));
    StartOccurs(p, m);
    EndOccurs(p, m);
  }

  lemma StartOccurs(p: Payload, m: Message)
    ensures Occurs(m, StartErrors(p)) ==
      (if m == StartRequired && !Present(p.startDate) then 1 else 0)
      + (if m == StartFormat && Present(p.startDate) && Dates.Parse(p.startDate.value).None? then 1 else 0)
  {
  }

  lemma EndOccurs(p: Payload, m: Message)
    ensures Occurs(m, EndErrors(p)) ==
      if m == EndFormat && Present(p.endDate) && Dates.Parse(p.endDate.value).None? then 1 else 0
  {
  }

  /** The occurrences of `m` in a list of at most one message. */
  function Occurs(m: Message, ms: seq<Message>): nat {
    if ms != [] && ms[0] == m then 1 else 0
  }

  lemma Occurring(m: Message, ms: seq<Message>)
    requires |ms| <= 1
    ensures multiset(ms)[m] == Occurs(m, ms)
  {
    if ms != [] {
      assert ms == [ms[0]];
    }
  }

  lemma Parts(a: seq<Message>, b: seq<Message>, c: seq<Message>, d: seq<Message>, m: Message)
    requires m !in d
    ensures multiset(a + b + c + d)[m] == multiset(a)[m] + multiset(b)[m] + multiset(c)[m]
  {
    assert multiset(d)[m] == 0;
  }

  /** Only the questions rule adds the two questions messages. */
  lemma NotQuestionError(p: Payload, m: Message)
    requires m != QuestionsRequired && m != BodyRequired
    ensures m !in QuestionErrors(p)
  {
    BodyErrorsOnly(QuestionList(p));
  }

  /** The questions rule: without questions, exactly one "at least one"
      message and no body message; with questions, no "at least one"
      message and one body message per question without a body. */
  lemma QuestionsRule(p: Payload)
    ensures QuestionsRequired in Errors(JsonBody(p)) <==> !HasQuestions(p)
    ensures multiset(Errors(JsonBody(p)))[QuestionsRequired] == if HasQuestions(p) then 0 else 1
    ensures multiset(Errors(JsonBody(p)))[BodyRequired] ==
      if HasQuestions(p) then |MissingBodies(p.questions.value)| else 0
  {
    var head := NameErrors(p) + StartErrors(p) + EndErrors(p);
    assert QuestionsRequired !in head && BodyRequired !in head;
    QuestionErrorsAfter(head, p);
  }

  lemma QuestionErrorsAfter(head: seq<Message>, p: Payload)
    requires QuestionsRequired !in head && BodyRequired !in head
    ensures QuestionsRequired in head + QuestionErrors(p) <==> !HasQuestions(p)
    ensures multiset(head + QuestionErrors(p))[QuestionsRequired] == if HasQuestions(p) then 0 else 1
    ensures multiset(head + QuestionErrors(p))[BodyRequired] ==
      if HasQuestions(p) then |MissingBodies(p.questions.value)| else 0
  {
    var qs := QuestionList(p);
    BodyErrorsOnly(qs);
    BodyErrorsAbsent(qs, QuestionsRequired);
    BodyErrorsCount(qs);
    BodyErrorsMultiset(qs);
  }

  lemma BodyErrorsAbsent(qs: seq<QuestionItem>, e: Message)
    requires e != BodyRequired
    ensures multiset(BodyErrors(qs))[e] == 0
  {
    BodyErrorsOnly(qs);
  }

  lemma {:induction false} BodyErrorsMultiset(qs: seq<QuestionItem>)
    ensures multiset(BodyErrors(qs))[BodyRequired] == |BodyErrors(qs)|
  {
    if qs != [] {
      BodyErrorsMultiset(qs[..|qs| - 1]);
    }
  }

  /** The rule a message belongs to, in checking order. */
  function Rank(e: Message): nat {
    match e
    case NotJson | NameRequired => 0
    case StartRequired | StartFormat => 1
    case EndFormat => 2
    case QuestionsRequired | BodyRequired => 3
  }

  /** The messages come in rule order: name, start date, end date, questions. */
  lemma RuleOrder(p: Payload)
    ensures var errors := Errors(JsonBody(p));
      forall i, j :: 0 <= i < j < |errors| ==> Rank(errors[i]) <= Rank(errors[j])
  {
    var errors := Errors(JsonBody(p));
    var head := NameErrors(p) + StartErrors(p) + EndErrors(p);
    BodyErrorsOnly(QuestionList(p));
    assert forall i :: 0 <= i < |head| ==> Rank(head[i]) <= 2;
    assert forall i :: |head| <= i < |errors| ==> errors[i] in QuestionErrors(p);
    assert forall i :: |head| <= i < |errors| ==> Rank(errors[i]) == 3;
  }

  /** At most one message per rule for the name and the dates, and at most
      one per question (or the one "at least one" message). */
  lemma ErrorBound(p: Payload)
    ensures |Errors(JsonBody(p))| <= 3 + if HasQuestions(p) then |p.questions.value| else 1
  {
    BodyErrorsOnly(QuestionList(p));
  }

  /** Every rule satisfied: what a payload needs to be stored. */
  predicate Acceptable(p: Payload) {
    && Present(p.name)
    && Present(p.startDate) && Dates.Parse(p.startDate.value).Some?
    && (Present(p.endDate) ==> Dates.Parse(p.endDate.value).Some?)
    && HasQuestions(p)
    && forall i :: 0 <= i < |p.questions.value| ==> Present(p.questions.value[i].body)
  }

  /** The list is empty exactly when the request is JSON and every rule holds. */
  lemma NoErrors(req: Request)
    ensures Errors(req) == [] <==> req.JsonBody? && Acceptable(req.payload)
  {
    if req.JsonBody? {
      BodyErrorsEmpty(QuestionList(req.payload));
    }
  }

  /** A complete payload in the documented form is accepted. */
  lemma AcceptsExample()
    ensures Errors(JsonBody(Payload(Some("S"), None, Some("01/01/2025 10:00"), None,
                                    Some([QuestionItem(Some("Q1"), None)])))) == []
  {
    Dates.ParseExample();
  }
}
