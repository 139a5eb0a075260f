/** The two records of the service: a survey and its questions, with the
    helpers that convert their dates and serialize them for the listing. */
module Models {
  import opened Wrappers
  import opened JsonValue
  import Dates

  // ---------------------------------------------------------------------------
  // Questions

  /** A row of the `questions` table: `body` and `survey_id` are NOT NULL,
      `note` may be null. */
  datatype Question = Question(id: int, body: string, note: Option<string>, surveyId: int)
  {
    /** `Question.serialize`: the dict {'body': ..., 'note': ...}. */
    function Serialize(): Json {
      Obj([("body", Str(body)), ("note", OfOptional(note))])
    }
  }

  /** What a client can read back from a serialized question. */
  datatype QuestionView = QuestionView(body: string, note: Option<string>)

  function ViewOf(q: Question): QuestionView {
    QuestionView(q.body, q.note)
  }

  /** A client's reading of one serialized question: a dict with exactly the
      keys body (a string) and note (a string or null). */
  function ReadQuestion(j: Json): Option<QuestionView> {
    var body := Get(j, "body");
    var note := Get(j, "note");
    if Keys(j) == ["body", "note"] && body.Some? && body.value.Str? && note.Some? && AsOptional(note.value).Some?
    then Some(QuestionView(body.value.s, AsOptional(note.value).value))
    else None
  }

  /** `Question.serialize` returns exactly the keys body and note, holding
      the two columns unchanged. */
  lemma QuestionSerializeShape(q: Question)
    ensures Keys(q.Serialize()) == ["body", "note"]
    ensures ReadQuestion(q.Serialize()) == Some(ViewOf(q))
  {
    var m := q.Serialize().members;
    LookupAt(m, 0);
    LookupAt(m, 1);
    assert Keys(q.Serialize()) == ["body", "note"];
  }

  /** `survey.questions`, the back reference of `Question.survey`: the rows
      whose survey_id is the survey's id, in table order. */
  function QuestionsOf(questions: seq<Question>, surveyId: int): (r: seq<Question>)
    ensures |r| <= |questions|
  {
    if questions == [] then []
    else
      var last := questions[|questions| - 1];
      QuestionsOf(questions[..|questions| - 1], surveyId) + (if last.surveyId == surveyId then [last] else [])
  }

  /** The back reference holds exactly the rows pointing at the survey. */
  lemma {:induction false} QuestionsOfMembers(questions: seq<Question>, surveyId: int)
    ensures forall q :: q in QuestionsOf(questions, surveyId) <==> q in questions && q.surveyId == surveyId
  {
    if questions != [] {
      var front := questions[..|questions| - 1];
      QuestionsOfMembers(front, surveyId);
      assert questions == front + [questions[|questions| - 1]];
    }
  }

  lemma {:induction false} QuestionsOfAppend(a: seq<Question>, b: seq<Question>, surveyId: int)
    ensures QuestionsOf(a + b, surveyId) == QuestionsOf(a, surveyId) + QuestionsOf(b, surveyId)
  {
    if b == [] {
      assert a + b == a;
    } else {
      var front := b[..|b| - 1];
      assert (a + b)[..|a + b| - 1] == a + front;
      QuestionsOfAppend(a, front, surveyId);
    }
  }

  lemma {:induction false} QuestionsOfAll(qs: seq<Question>, surveyId: int)
    requires forall i :: 0 <= i < |qs| ==> qs[i].surveyId == surveyId
    ensures QuestionsOf(qs, surveyId) == qs
  {
    if qs != [] {
      QuestionsOfAll(qs[..|qs| - 1], surveyId);
    }
  }

  lemma {:induction false} QuestionsOfNone(qs: seq<Question>, surveyId: int)
    requires forall i :: 0 <= i < |qs| ==> qs[i].surveyId != surveyId
    ensures QuestionsOf(qs, surveyId) == []
  {
    if qs != [] {
      QuestionsOfNone(qs[..|qs| - 1], surveyId);
    }
  }

  // ---------------------------------------------------------------------------
  // The serialized `questions` list

  /** `[{'question': question.serialize} for question in self.questions]`. */
  function QuestionEntries(questions: seq<Question>): (r: seq<Json>)
    ensures |r| == |questions|
    ensures forall i :: 0 <= i < |r| ==> r[i] == Obj([("question", questions[i].Serialize())])
  {
    if questions == [] then []
    else [Obj([("question", questions[0].Serialize())])] + QuestionEntries(questions[1..])
  }

  function Views(questions: seq<Question>): (r: seq<QuestionView>)
    ensures |r| == |questions|
    ensures forall i :: 0 <= i < |r| ==> r[i] == ViewOf(questions[i])
  {
    if questions == [] then [] else [ViewOf(questions[0])] + Views(questions[1..])
  }

  /** A client's reading of the serialized questions list: every element a
      dict whose only key is 'question'. */
  function ReadEntries(items: seq<Json>): Option<seq<QuestionView>> {
    if items == [] then Some([])
    else
      var head := items[0];
      if head.Obj? && |head.members| == 1 && head.members[0].0 == "question" then
        match (ReadQuestion(head.members[0].1), ReadEntries(items[1..]))
        case (Some(q), Some(rest)) => Some([q] + rest)
        case _ => None
      else None
  }

  lemma {:induction false} ReadQuestionEntries(questions: seq<Question>)
    ensures ReadEntries(QuestionEntries(questions)) == Some(Views(questions))
  {
    if questions != [] {
      var r := QuestionEntries(questions);
      assert r[1..] == QuestionEntries(questions[1..]);
      QuestionSerializeShape(questions[0]);
      ReadQuestionEntries(questions[1..]);
    }
  }

  // ---------------------------------------------------------------------------
  // Surveys

  /** What a client can read back from a serialized survey. */
  datatype SurveyView = SurveyView(
    id: int, name: string, description: Option<string>,
    startDate: Dates.DateTime, endDate: Dates.DateTime, questions: seq<QuestionView>)

  /** The keys of a serialized survey, in the order the dict literal lists them. */
  const SurveyKeys: seq<string> := ["id", "name", "description", "start_date", "end_date", "questions"]

  /** A client's reading of one field of a serialized survey. */
  function ReadInt(o: Option<Json>): Option<int> {
    if o.Some? && o.value.Int? then Some(o.value.n) else None
  }

  function ReadStr(o: Option<Json>): Option<string> {
    if o.Some? && o.value.Str? then Some(o.value.s) else None
  }

  function ReadNullable(o: Option<Json>): Option<Option<string>> {
    if o.Some? then AsOptional(o.value) else None
  }

  /** A date field is a string in the date format. */
  function ReadDate(o: Option<Json>): Option<Dates.DateTime> {
    if o.Some? && o.value.Str? then Dates.Parse(o.value.s) else None
  }

  function ReadQuestions(o: Option<Json>): Option<seq<QuestionView>> {
    if o.Some? && o.value.Arr? then ReadEntries(o.value.items) else None
  }

  /** A client's reading of a serialized survey: a dict with exactly the six
      keys, both dates as strings in the date format, and the questions list. */
  function ReadSurvey(j: Json): Option<SurveyView> {
    var id := ReadInt(Get(j, "id"));
    var name := ReadStr(Get(j, "name"));
    var description := ReadNullable(Get(j, "description"));
    var start := ReadDate(Get(j, "start_date"));
    var end := ReadDate(Get(j, "end_date"));
    var questions := ReadQuestions(Get(j, "questions"));
    if && Keys(j) == SurveyKeys
       && id.Some? && name.Some? && description.Some?
       && start.Some? && end.Some? && questions.Some?
    then Some(SurveyView(id.value, name.value, description.value, start.value, end.value, questions.value))
    else None
  }

  /** The dict `Survey.serialize` builds once both dates are set. */
  function SurveyJson(id: int, name: string, description: Option<string>,
                      startDate: Dates.DateTime, endDate: Dates.DateTime, questions: seq<Question>): Json
  {
    Obj([
      ("id", Int(id)),
      ("name", Str(name)),
      ("description", OfOptional(description)),
      ("start_date", Str(Dates.Format(startDate))),
      ("end_date", Str(Dates.Format(endDate))),
      ("questions", Arr(QuestionEntries(questions)))])
  }

  /** A serialized survey has exactly the six keys, and a client reads back
      from it every column and every question, in order. */
  lemma ReadSurveyJson(id: int, name: string, description: Option<string>,
                       startDate: Dates.DateTime, endDate: Dates.DateTime, questions: seq<Question>)
    ensures var j := SurveyJson(id, name, description, startDate, endDate, questions);
      && Keys(j) == SurveyKeys
      && Get(j, "questions") == Some(Arr(QuestionEntries(questions)))
      && ReadSurvey(j) == Some(SurveyView(id, name, description, startDate, endDate, Views(questions)))
  {
    SurveyJsonShape(id, name, description, startDate, endDate, questions);
    SurveyJsonColumns(id, name, description, startDate, endDate, questions);
    SurveyJsonDates(id, name, description, startDate, endDate, questions);
    SurveyJsonQuestions(id, name, description, startDate, endDate, questions);
    ReadSurveyOf(SurveyJson(id, name, description, startDate, endDate, questions),
                 SurveyView(id, name, description, startDate, endDate, Views(questions)));
  }

  lemma SurveyJsonShape(id: int, name: string, description: Option<string>,
                        startDate: Dates.DateTime, endDate: Dates.DateTime, questions: seq<Question>)
    ensures var j := SurveyJson(id, name, description, startDate, endDate, questions);
      Keys(j) == SurveyKeys && Get(j, "questions") == Some(Arr(QuestionEntries(questions)))
  {
    SurveyJsonMembers(id, name, description, startDate, endDate, questions);
  }

  lemma SurveyJsonColumns(id: int, name: string, description: Option<string>,
                          startDate: Dates.DateTime, endDate: Dates.DateTime, questions: seq<Question>)
    ensures var j := SurveyJson(id, name, description, startDate, endDate, questions);
      && ReadInt(Get(j, "id")) == Some(id)
      && ReadStr(Get(j, "name")) == Some(name)
      && ReadNullable(Get(j, "description")) == Some(description)
  {
    SurveyJsonMembers(id, name, description, startDate, endDate, questions);
  }

  lemma SurveyJsonDates(id: int, name: string, description: Option<string>,
                        startDate: Dates.DateTime, endDate: Dates.DateTime, questions: seq<Question>)
    ensures var j := SurveyJson(id, name, description, startDate, endDate, questions);
      ReadDate(Get(j, "start_date")) == Some(startDate) && ReadDate(Get(j, "end_date")) == Some(endDate)
  {
    SurveyJsonMembers(id, name, description, startDate, endDate, questions);
    Dates.ParseFormat(startDate);
    Dates.ParseFormat(endDate);
  }

  lemma SurveyJsonQuestions(id: int, name: string, description: Option<string>,
                            startDate: Dates.DateTime, endDate: Dates.DateTime, questions: seq<Question>)
    ensures ReadQuestions(Get(SurveyJson(id, name, description, startDate, endDate, questions), "questions"))
      == Some(Views(questions))
  {
    SurveyJsonMembers(id, name, description, startDate, endDate, questions);
    ReadQuestionEntries(questions);
  }

  /** A dict whose six fields read back as the view's columns reads back as the view. */
  lemma ReadSurveyOf(j: Json, v: SurveyView)
    requires Keys(j) == SurveyKeys
    requires ReadInt(Get(j, "id")) == Some(v.id)
    requires ReadStr(Get(j, "name")) == Some(v.name)
    requires ReadNullable(Get(j, "description")) == Some(v.description)
    requires ReadDate(Get(j, "start_date")) == Some(v.startDate)
    requires ReadDate(Get(j, "end_date")) == Some(v.endDate)
    requires ReadQuestions(Get(j, "questions")) == Some(v.questions)
    ensures ReadSurvey(j) == Some(v)
  {
  }

  lemma SurveyJsonMembers(id: int, name: string, description: Option<string>,
                          startDate: Dates.DateTime, endDate: Dates.DateTime, questions: seq<Question>)
    ensures var j := SurveyJson(id, name, description, startDate, endDate, questions);
      && Keys(j) == SurveyKeys
      && Get(j, "id") == Some(Int(id))
      && Get(j, "name") == Some(Str(name))
      && Get(j, "description") == Some(OfOptional(description))
      && Get(j, "start_date") == Some(Str(Dates.Format(startDate)))
      && Get(j, "end_date") == Some(Str(Dates.Format(endDate)))
      && Get(j, "questions") == Some(Arr(QuestionEntries(questions)))
  {
    var j := SurveyJson(id, name, description, startDate, endDate, questions);
    var m := j.members;
    assert Keys(j) == SurveyKeys;
    LookupAt(m, 0);
    LookupAt(m, 1);
    LookupAt(m, 2);
    LookupAt(m, 3);
    LookupAt(m, 4);
    LookupAt(m, 5);
  }

  /** A row of the `surveys` table. `Survey.set_datetime` updates it in place. */
  class Survey {
    var id: int
    var name: string
    var description: Option<string>
    var startDate: Option<Dates.DateTime>
    var endDate: Option<Dates.DateTime>

    /** `Survey()`: a record whose columns are not yet set. */
    constructor ()
      ensures id == 0 && name == "" && description == None && startDate == None && endDate == None
    {
      id := 0;
      name := "";
      description := None;
      startDate := None;
      endDate := None;
    }

    /** `set_datetime(start_or_end, datetime_str)`: parses the string first
        (ValueError when it is outside the format, whatever the tag), then
        stores the value in start_date for 'start', in end_date for 'end',
        and nowhere for any other tag. */
    method SetDatetime(startOrEnd: string, datetimeStr: string) returns (r: Outcome)
      modifies this
      ensures r == (if Dates.Parse(datetimeStr).Some? then Pass else Fail(ValueError))
      ensures id == old(id) && name == old(name) && description == old(description)
      ensures startDate == (if r.Pass? && startOrEnd == "start" then Dates.Parse(datetimeStr) else old(startDate))
      ensures endDate == (if r.Pass? && startOrEnd == "end" then Dates.Parse(datetimeStr) else old(endDate))
    {
      var parsed := Dates.Parse(datetimeStr);
      if parsed.None? {
        return Fail(ValueError);
      }
      if startOrEnd == "start" {
        startDate := parsed;
      } else if startOrEnd == "end" {
        endDate := parsed;
      }
      r := Pass;
    }

    /** `get_datetime(start_or_end)`: the column written zero-padded with
        strftime; AttributeError when that column is null; None for a tag
        other than 'start' and 'end'. */
    function GetDatetime(startOrEnd: string): (r: Result<Option<string>>)
      reads this
      ensures startOrEnd == "start" ==> (r.Err? <==> startDate.None?)
      ensures startOrEnd == "end" ==> (r.Err? <==> endDate.None?)
      ensures r.Err? ==> r.error == AttributeError
      ensures startOrEnd != "start" && startOrEnd != "end" ==> r == Ok(None)
      ensures r.Ok? && (startOrEnd == "start" || startOrEnd == "end") ==> r.value.Some?
      ensures r.Ok? && r.value.Some? ==> Dates.ZeroPadded(r.value.value)
    {
      if startOrEnd == "start" then Written(startDate)
      else if startOrEnd == "end" then Written(endDate)
      else Ok(None)
    }

    /** `Survey.serialize`: fails with AttributeError unless both dates are
        set; otherwise a dict with exactly the six keys: the columns, the two
        dates as `get_datetime` writes them, and a questions entry listing, in
        order, `{'question': q.serialize}` for each question it is given
        (`questions` stands for `self.questions`). */
    function Serialize(questions: seq<Question>): (r: Result<Json>)
      reads this
      ensures r.Ok? <==> startDate.Some? && endDate.Some?
      ensures r.Err? ==> r.error == AttributeError
      ensures r.Ok? ==> Keys(r.value) == SurveyKeys
      ensures r.Ok? ==> Get(r.value, "id") == Some(Int(id)) && Get(r.value, "name") == Some(Str(name))
      ensures r.Ok? ==> Get(r.value, "description") == Some(OfOptional(description))
      ensures r.Ok? ==> Get(r.value, "start_date") == Some(Str(GetDatetime("start").value.value))
      ensures r.Ok? ==> Get(r.value, "end_date") == Some(Str(GetDatetime("end").value.value))
      ensures r.Ok? ==> Get(r.value, "questions") == Some(Arr(QuestionEntries(questions)))
    {
      var start := GetDatetime("start");
      var end := GetDatetime("end");
      if start.Err? then Err(start.error)
      else if end.Err? then Err(end.error)
      else
        SurveyJsonMembers(id, name, description, startDate.value, endDate.value, questions);
        Ok(SurveyJson(id, name, description, startDate.value, endDate.value, questions))
    }
  }

  /** A client reads back from a serialized survey every column and, in
      order, every question. */
  lemma SerializeReadsBack(survey: Survey, questions: seq<Question>)
    requires survey.startDate.Some? && survey.endDate.Some?
    ensures survey.Serialize(questions).Ok?
    ensures ReadSurvey(survey.Serialize(questions).value) ==
      Some(SurveyView(survey.id, survey.name, survey.description,
                      survey.startDate.value, survey.endDate.value, Views(questions)))
  {
    ReadSurveyJson(survey.id, survey.name, survey.description,
                   survey.startDate.value, survey.endDate.value, questions);
  }

  /** `column.strftime('%d/%m/%Y %H:%M')`, or AttributeError on a null column. */
  function Written(column: Option<Dates.DateTime>): (r: Result<Option<string>>)
    ensures r.Err? <==> column.None?
    ensures r.Err? ==> r.error == AttributeError
    ensures r.Ok? ==> r.value.Some? && Dates.ZeroPadded(r.value.value)
  {
    match column
    case None => Err(AttributeError)
    case Some(d) =>
      Dates.FormatZeroPadded(d);
      Ok(Some(Dates.Format(d)))
  }

  /** What `get_datetime` writes parses back to the column it came from. */
  lemma GetDatetimeParsesBack(survey: Survey, tag: string)
    requires tag == "start" || tag == "end"
    requires survey.GetDatetime(tag).Ok?
    ensures survey.GetDatetime(tag).value.Some?
    ensures Dates.Parse(survey.GetDatetime(tag).value.value) == if tag == "start" then survey.startDate else survey.endDate
  {
    var column := if tag == "start" then survey.startDate else survey.endDate;
    Dates.ParseFormat(column.value);
  }

  /** Round trip through the record: once `set_datetime(tag, s)` has stored
      its value, `get_datetime(tag)` returns the zero-padded form of `s`, which
      is `s` itself when `s` is already zero-padded. */
  lemma GetAfterSet(survey: Survey, tag: string, s: string)
    requires tag == "start" || tag == "end"
    requires Dates.Parse(s).Some?
    requires (if tag == "start" then survey.startDate else survey.endDate) == Dates.Parse(s)
    ensures survey.GetDatetime(tag) == Ok(Some(Dates.Format(Dates.Parse(s).value)))
    ensures Dates.ZeroPadded(s) ==> survey.GetDatetime(tag) == Ok(Some(s))
  {
    if Dates.ZeroPadded(s) {
      Dates.FormatParse(s);
    }
  }
}
