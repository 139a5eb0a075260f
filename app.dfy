/** The `/survey` endpoint over an in-memory stand-in for the database:
    POST validates the request and stores one survey with its questions in
    one commit; GET serializes every stored survey. */
module App {
  import opened Wrappers
  import opened JsonValue
  import Dates
  import opened Models
  import opened Validation

  /** What POST answers: `{'errors': [...]}` or `{'success': ...}`. */
  datatype Response = Rejected(errors: seq<string>) | Created(message: string)

  const CreatedMessage: string := "Your survey was successfully added to the database."

  /** The two tables, rows in insertion order. The database numbers the rows
      of each table 1, 2, 3, ... in the order they are committed. */
  class Store {
    var surveys: seq<Survey>
    var questions: seq<Question>

    /** What the tables hold between requests. */
    ghost predicate Valid()
      reads this, surveys
    {
      Tables(surveys, questions)
    }

    /** Empty tables, as `db.create_all()` leaves them. */
    constructor ()
      ensures Valid()
      ensures surveys == [] && questions == []
    {
      surveys := [];
      questions := [];
    }

    /** `survey()` on POST: run the validator; on errors answer them and write
        nothing; otherwise store the payload. */
    method Create(req: Request) returns (resp: Response)
      requires Valid()
      modifies this
      ensures Valid()
      ensures Errors(req) != [] ==>
        resp == Rejected(Texts(Errors(req))) && surveys == old(surveys) && questions == old(questions)
      ensures Errors(req) == [] ==> resp == Created(CreatedMessage) && Acceptable(req.payload) && Stored(req.payload)
    {
      var errors := ValidateRequest(req);
      if errors != [] {
        return Rejected(Texts(errors));
      }
      NoErrors(req);
      Save(req.payload);
      resp := Created(CreatedMessage);
    }

    /** The rows an accepted payload makes: `Survey(...)` with its columns
        set, then the question rows, added and committed. */
    method Save(data: Payload)
      requires Valid() && Acceptable(data)
      modifies this
      ensures Valid()
      ensures Stored(data)
    {
      var survey, started, ended := NewSurvey(data, |surveys| + 1);
      Add(survey, data.questions.value);
    }

    /** The survey and its questions added in one commit: the survey row
        numbered after the stored ones, and one question row per payload
        question, in order, with its body and note, numbered after the stored
        ones and linked to the new survey; the new survey has exactly those
        questions and no other survey's questions change. */
    method Add(survey: Survey, items: seq<QuestionItem>)
      requires Valid()
      requires survey.id == |surveys| + 1 && survey.name != "" && survey.startDate.Some?
      requires items != [] && forall i :: 0 <= i < |items| ==> items[i].body.Some? && items[i].body.value != ""
      modifies this
      ensures Valid()
      ensures surveys == old(surveys) + [survey]
      ensures questions == old(questions) + Rows(items, |old(questions)| + 1, survey.id)
      ensures QuestionsOf(questions, survey.id) == questions[|old(questions)|..]
      ensures forall sid :: sid != survey.id ==> QuestionsOf(questions, sid) == QuestionsOf(old(questions), sid)
    {
      var pending := QuestionRows(items, |questions| + 1, survey.id);
      ghost var s0, q0 := surveys, questions;
      surveys, questions := surveys + [survey], questions + pending;
      TablesAppend(s0, survey, q0, pending);
      assert questions[|q0|..] == pending;
    }

    /** What storing payload `p` leaves in the tables, against what they held:
        a new survey object appended as described by Extends. */
    twostate predicate Stored(p: Payload)
      requires Acceptable(p)
      reads this, surveys
    {
      && Extends(p, old(surveys), old(questions), surveys, questions)
      && fresh(surveys[|old(surveys)|])
    }

    /** `survey()` on GET: `[survey.serialize for survey in Survey.query.all()]`,
        whose `questions` are the rows pointing at each survey; the
        AttributeError of a survey without an end date fails the listing. */
    function List(): (r: Result<seq<Json>>)
      reads this, surveys
      ensures r.Ok? <==> forall i :: 0 <= i < |surveys| ==> surveys[i].startDate.Some? && surveys[i].endDate.Some?
      ensures r.Err? ==> r.error == AttributeError
      ensures r.Ok? ==> |r.value| == |surveys|
      ensures r.Ok? ==> forall i :: 0 <= i < |surveys| ==>
        surveys[i].Serialize(QuestionsOf(questions, surveys[i].id)) == Ok(r.value[i])
    {
      Collect(Serialized(surveys, questions))
    }
  }

  /** `survey.serialize` for each survey, in order, each with its own questions. */
  function Serialized(ss: seq<Survey>, questions: seq<Question>): (rs: seq<Result<Json>>)
    reads ss
    ensures |rs| == |ss|
    ensures forall i :: 0 <= i < |ss| ==> rs[i] == ss[i].Serialize(QuestionsOf(questions, ss[i].id))
    ensures forall i :: 0 <= i < |ss| ==> (rs[i].Ok? <==> ss[i].startDate.Some? && ss[i].endDate.Some?)
    ensures forall i :: 0 <= i < |ss| ==> rs[i].Err? ==> rs[i].error == AttributeError
  {
    if ss == [] then []
    else [ss[0].Serialize(QuestionsOf(questions, ss[0].id))] + Serialized(ss[1..], questions)
  }

  /** A list comprehension over calls that may raise: the list of values, or
      the first exception raised. */
  function Collect(rs: seq<Result<Json>>): (r: Result<seq<Json>>)
    ensures r.Ok? <==> forall i :: 0 <= i < |rs| ==> rs[i].Ok?
    ensures r.Ok? ==> |r.value| == |rs| && forall i :: 0 <= i < |rs| ==> rs[i] == Ok(r.value[i])
    ensures r.Err? ==> exists i :: 0 <= i < |rs| && rs[i] == Err(r.error) && forall k :: 0 <= k < i ==> rs[k].Ok?
  {
    if rs == [] then Ok([])
    else if rs[0].Err? then Err(rs[0].error)
    else
      var rest := Collect(rs[1..]);
      if rest.Err? then
        var i :| 0 <= i < |rs[1..]| && rs[1..][i] == Err(rest.error) && forall k :: 0 <= k < i ==> rs[1..][k].Ok?;
        assert rs[i + 1] == Err(rest.error);
        Err(rest.error)
      else Ok([rs[0].value] + rest.value)
  }

  /** The rows of the tables between requests: keys count up from 1, the
      NOT NULL columns are set (and, coming through the validator, not
      empty), every question belongs to a stored survey and every survey has
      a question. */
  ghost predicate Tables(surveys: seq<Survey>, questions: seq<Question>)
    reads surveys
  {
    Numbered(surveys) && Owned(questions, |surveys|) && Populated(surveys, questions)
  }

  /** Survey keys count up from 1 and the NOT NULL columns are set. */
  ghost predicate Numbered(surveys: seq<Survey>)
    reads surveys
  {
    forall i :: 0 <= i < |surveys| ==> surveys[i].id == i + 1 && surveys[i].name != "" && surveys[i].startDate.Some?
  }

  /** Question keys count up from 1, bodies are set, and every question
      belongs to one of the surveys 1..n. */
  predicate Owned(questions: seq<Question>, n: nat) {
    forall i :: 0 <= i < |questions| ==>
      questions[i].id == i + 1 && 1 <= questions[i].surveyId <= n && questions[i].body != ""
  }

  /** Every survey has a question. */
  ghost predicate Populated(surveys: seq<Survey>, questions: seq<Question>)
    reads surveys
  {
    forall i :: 0 <= i < |surveys| ==> QuestionsOf(questions, surveys[i].id) != []
  }

  /** `Survey()` with its columns set from the payload: the name and the
      description as sent, the dates through `set_datetime`, the end date
      only when one was sent. `id` is the key the database assigns.
      `set_datetime` fails on a date exactly when the validator's rule for
      that date reports it. */
  method NewSurvey(data: Payload, id: int) returns (survey: Survey, started: Outcome, ended: Option<Outcome>)
    requires Present(data.name) && Present(data.startDate)
    ensures fresh(survey)
    ensures Row(survey, data, id)
    ensures started == Pass <==> StartErrors(data) == []
    ensures ended.Some? <==> Present(data.endDate)
    ensures ended.Some? ==> (ended.value == Pass <==> EndErrors(data) == [])
  {
    survey := new Survey();
    survey.id := id;
    survey.name := data.name.value;
    survey.description := data.description;
    started := survey.SetDatetime("start", data.startDate.value);
    ended := None;
    if Present(data.endDate) {
      var outcome := survey.SetDatetime("end", data.endDate.value);
      ended := Some(outcome);
    }
    DateRules(data);
  }

  /** The validator's date rules report exactly the dates `strptime` refuses. */
  lemma DateRules(data: Payload)
    requires Present(data.startDate)
    ensures StartErrors(data) == [] <==> Dates.Parse(data.startDate.value).Some?
    ensures Present(data.endDate) ==> (EndErrors(data) == [] <==> Dates.Parse(data.endDate.value).Some?)
  {
  }

  /** The survey row a payload turns into: key `id`, the name and the
      description as sent, the dates as parsed, no end date when none was
      sent. */
  ghost predicate Row(survey: Survey, p: Payload, id: int)
    requires Present(p.name) && Present(p.startDate)
    reads survey
  {
    && survey.id == id
    && Some(survey.name) == p.name
    && survey.description == p.description
    && survey.startDate == Dates.Parse(p.startDate.value)
    && survey.endDate == (if Present(p.endDate) then Dates.Parse(p.endDate.value) else None)
  }

  /** Tables `surveys`, `questions` are tables `s0`, `q0` with payload `p`
      added: one survey row numbered after the stored ones, one question row
      per payload question, in order, numbered after the stored ones and
      linked to the new survey; the new survey has exactly those questions,
      and every other survey keeps its own. */
  ghost predicate Extends(p: Payload, s0: seq<Survey>, q0: seq<Question>, surveys: seq<Survey>, questions: seq<Question>)
    requires Acceptable(p)
    reads surveys
  {
    var n := |s0|;
    var m := |q0|;
    && |surveys| == n + 1 && surveys[..n] == s0
    && Row(surveys[n], p, n + 1)
    && questions == q0 + Rows(p.questions.value, m + 1, n + 1)
    && QuestionsOf(questions, n + 1) == questions[m..]
    && (forall sid :: sid != n + 1 ==> QuestionsOf(questions, sid) == QuestionsOf(q0, sid))
  }

  /** A survey stored from a payload with an end date is listed as it was
      posted: its serialization reads back with the new key, the name and
      the description as sent, the dates as parsed and, in order, each
      question's body and note. */
  lemma ListedAsPosted(p: Payload, s0: seq<Survey>, q0: seq<Question>, surveys: seq<Survey>, questions: seq<Question>)
    requires Acceptable(p) && Extends(p, s0, q0, surveys, questions) && Present(p.endDate)
    ensures var n := |s0|;
      var r := surveys[n].Serialize(QuestionsOf(questions, n + 1));
      && r.Ok?
      && ReadSurvey(r.value) == Some(SurveyView(n + 1, p.name.value, p.description,
           Dates.Parse(p.startDate.value).value, Dates.Parse(p.endDate.value).value, Asked(p.questions.value)))
  {
    var n := |s0|;
    var rows := Rows(p.questions.value, |q0| + 1, n + 1);
    Suffix(q0, rows);
    RowsRead(p.questions.value, |q0| + 1, n + 1);
    SerializeReadsBack(surveys[n], rows);
  }

  /** The listed dates of a survey stored from a payload with an end date are
      the zero-padded texts of the dates sent, so a date sent zero-padded is
      listed as the very text that was sent. */
  lemma DatesListedAsSent(p: Payload, s0: seq<Survey>, q0: seq<Question>, surveys: seq<Survey>, questions: seq<Question>)
    requires Acceptable(p) && Extends(p, s0, q0, surveys, questions) && Present(p.endDate)
    ensures surveys[|s0|].Serialize(QuestionsOf(questions, |s0| + 1)).Ok?
    ensures Get(surveys[|s0|].Serialize(QuestionsOf(questions, |s0| + 1)).value, "start_date")
      == Some(Str(Dates.Format(Dates.Parse(p.startDate.value).value)))
    ensures Get(surveys[|s0|].Serialize(QuestionsOf(questions, |s0| + 1)).value, "end_date")
      == Some(Str(Dates.Format(Dates.Parse(p.endDate.value).value)))
    ensures Dates.ZeroPadded(p.startDate.value) ==>
      Get(surveys[|s0|].Serialize(QuestionsOf(questions, |s0| + 1)).value, "start_date") == Some(Str(p.startDate.value))
    ensures Dates.ZeroPadded(p.endDate.value) ==>
      Get(surveys[|s0|].Serialize(QuestionsOf(questions, |s0| + 1)).value, "end_date") == Some(Str(p.endDate.value))
  {
    var survey := surveys[|s0|];
    GetAfterSet(survey, "start", p.startDate.value);
    GetAfterSet(survey, "end", p.endDate.value);
  }

  lemma Suffix(a: seq<Question>, b: seq<Question>)
    ensures (a + b)[|a|..] == b
  {
  }

  /** The rows of the posted questions read back as the posted questions. */
  lemma RowsRead(items: seq<QuestionItem>, firstId: int, surveyId: int)
    requires forall i :: 0 <= i < |items| ==> items[i].body.Some?
    ensures Views(Rows(items, firstId, surveyId)) == Asked(items)
  {
  }

  /** A survey stored from a payload without an end date cannot be
      serialized, so it is never listed. */
  lemma UnlistedWithoutEnd(p: Payload, s0: seq<Survey>, q0: seq<Question>, surveys: seq<Survey>, questions: seq<Question>)
    requires Acceptable(p) && Extends(p, s0, q0, surveys, questions) && !Present(p.endDate)
    ensures surveys[|s0|].Serialize(QuestionsOf(questions, |s0| + 1)) == Err(AttributeError)
  {
  }

  /** What a client reads back for each posted question: its body and its note. */
  function Asked(items: seq<QuestionItem>): (r: seq<QuestionView>)
    requires forall i :: 0 <= i < |items| ==> items[i].body.Some?
    ensures |r| == |items|
    ensures forall k :: 0 <= k < |items| ==> r[k] == QuestionView(items[k].body.value, items[k].note)
  {
    if items == [] then []
    else
      var k := |items| - 1;
      Asked(items[..k]) + [QuestionView(items[k].body.value, items[k].note)]
  }

  /** The question rows for the payload's questions, in order, numbered from
      `firstId` and linked to survey `surveyId`. */
  function Rows(items: seq<QuestionItem>, firstId: int, surveyId: int): (r: seq<Question>)
    requires forall i :: 0 <= i < |items| ==> items[i].body.Some?
    ensures |r| == |items|
    ensures forall k :: 0 <= k < |items| ==>
      r[k] == Question(firstId + k, items[k].body.value, items[k].note, surveyId)
  {
    if items == [] then []
    else
      var k := |items| - 1;
      Rows(items[..k], firstId, surveyId) + [Question(firstId + k, items[k].body.value, items[k].note, surveyId)]
  }

  /** The loop adding one question row per payload question. */
  method QuestionRows(items: seq<QuestionItem>, firstId: int, surveyId: int) returns (pending: seq<Question>)
    requires forall i :: 0 <= i < |items| ==> items[i].body.Some?
    ensures pending == Rows(items, firstId, surveyId)
  {
    pending := [];
    for k := 0 to |items|
      invariant |pending| == k
      invariant forall i :: 0 <= i < k ==>
        pending[i] == Question(firstId + i, items[i].body.value, items[i].note, surveyId)
    {
      pending := pending + [Question(firstId + k, items[k].body.value, items[k].note, surveyId)];
    }
  }

  /** Committing a new survey numbered after the stored ones, with at least
      one question row numbered after the stored ones and linked to it, keeps
      the tables valid, gives the new survey exactly those questions and
      leaves every other survey's questions as they were. */
  lemma TablesAppend(surveys: seq<Survey>, survey: Survey, questions: seq<Question>, pending: seq<Question>)
    requires Tables(surveys, questions)
    requires survey.id == |surveys| + 1 && survey.name != "" && survey.startDate.Some?
    requires pending != []
    requires forall k :: 0 <= k < |pending| ==>
      pending[k].id == |questions| + k + 1 && pending[k].body != "" && pending[k].surveyId == survey.id
    ensures Tables(surveys + [survey], questions + pending)
    ensures QuestionsOf(questions + pending, survey.id) == pending
    ensures forall sid :: sid != survey.id ==> QuestionsOf(questions + pending, sid) == QuestionsOf(questions, sid)
  {
    NumberedAppend(surveys, survey);
    OwnedAppend(questions, pending, |surveys|);
    NewQuestions(questions, pending, |surveys|);
    PopulatedAppend(surveys, survey, questions, pending);
  }

  lemma NumberedAppend(surveys: seq<Survey>, survey: Survey)
    requires Numbered(surveys)
    requires survey.id == |surveys| + 1 && survey.name != "" && survey.startDate.Some?
    ensures Numbered(surveys + [survey])
  {
    var ss := surveys + [survey];
    assert forall i :: 0 <= i < |surveys| ==> ss[i] == surveys[i];
  }

  lemma OwnedAppend(questions: seq<Question>, pending: seq<Question>, n: nat)
    requires Owned(questions, n)
    requires forall k :: 0 <= k < |pending| ==>
      pending[k].id == |questions| + k + 1 && pending[k].body != "" && pending[k].surveyId == n + 1
    ensures Owned(questions + pending, n + 1)
  {
    var qs := questions + pending;
    forall i | 0 <= i < |qs|
      ensures qs[i].id == i + 1 && 1 <= qs[i].surveyId <= n + 1 && qs[i].body != ""
    {
      if i < |questions| {
        assert qs[i] == questions[i];
      } else {
        assert qs[i] == pending[i - |questions|];
      }
    }
  }

  lemma PopulatedAppend(surveys: seq<Survey>, survey: Survey, questions: seq<Question>, pending: seq<Question>)
    requires Numbered(surveys) && Populated(surveys, questions)
    requires survey.id == |surveys| + 1
    requires QuestionsOf(questions + pending, survey.id) == pending != []
    requires forall sid :: sid != survey.id ==> QuestionsOf(questions + pending, sid) == QuestionsOf(questions, sid)
    ensures Populated(surveys + [survey], questions + pending)
  {
    var ss := surveys + [survey];
    forall i | 0 <= i < |ss|
      ensures QuestionsOf(questions + pending, ss[i].id) != []
    {
      if i < |surveys| {
        assert ss[i] == surveys[i];
      }
    }
  }

  /** Appending the questions of new survey n + 1 gives it exactly those
      questions and leaves every other survey's questions as they were. */
  lemma NewQuestions(before: seq<Question>, pending: seq<Question>, n: nat)
    requires forall i :: 0 <= i < |before| ==> before[i].surveyId <= n
    requires forall i :: 0 <= i < |pending| ==> pending[i].surveyId == n + 1
    ensures QuestionsOf(before + pending, n + 1) == pending
    ensures forall sid :: sid != n + 1 ==> QuestionsOf(before + pending, sid) == QuestionsOf(before, sid)
  {
    QuestionsOfAppend(before, pending, n + 1);
    QuestionsOfNone(before, n + 1);
    QuestionsOfAll(pending, n + 1);
    forall sid | sid != n + 1
      ensures QuestionsOf(before + pending, sid) == QuestionsOf(before, sid)
    {
      QuestionsOfAppend(before, pending, sid);
      QuestionsOfNone(pending, sid);
    }
  }
}
