/**
 * The modal that creates a challenge: a form whose inputs are state, and a
 * submit handler that refuses a form without an image and otherwise builds
 * the multipart body, one entry at a time, and hands it to the page.
 */
module CreateChallengeModal {
  import opened Common
  import opened Text

  /** The three categories the select offers; the form starts on DISTANCE. */
  datatype Category = Distance | Speed | Attendance

  function CategoryName(category: Category): string {
    match category
    case Distance => "DISTANCE"
    case Speed => "SPEED"
    case Attendance => "ATTENDANCE"
  }

  /** The category a submitted name stands for, if any. */
  function CategoryFromName(name: string): (r: Option<Category>)
    ensures r.Some? ==> CategoryName(r.value) == name
  {
    if name == "DISTANCE" then Some(Distance)
    else if name == "SPEED" then Some(Speed)
    else if name == "ATTENDANCE" then Some(Attendance)
    else None
  }

  /** The picked image file, of which only its identity matters here. */
  datatype File = File(name: string)

  /** A value in a `FormData`: a string or a file. */
  datatype FormValue = StringValue(text: string) | FileValue(file: File)

  datatype FormEntry = FormEntry(key: string, value: FormValue)

  /** The keys of the submitted form, in the order they are appended. */
  const FieldOrder: seq<string> :=
    ["title", "content", "challengeCategory", "goal", "goalDetail", "startDate", "endDate", "image"]

  /** The `CreateChallengeRequest` the form carries: every field, with the image present. */
  datatype Request = Request(
    title: string,
    content: string,
    challengeCategory: Category,
    goal: int,
    goalDetail: string,
    startDate: string,
    endDate: string,
    image: File)

  /** The form body for a request: eight entries, keyed in `FieldOrder`. */
  function Encode(r: Request): (form: seq<FormEntry>)
    ensures |form| == |FieldOrder|
    ensures forall i :: 0 <= i < |form| ==> form[i].key == FieldOrder[i]
  {
    [ FormEntry("title", StringValue(r.title)),
      FormEntry("content", StringValue(r.content)),
      FormEntry("challengeCategory", StringValue(CategoryName(r.challengeCategory))),
      FormEntry("goal", StringValue(IntToString(r.goal))),
      FormEntry("goalDetail", StringValue(r.goalDetail)),
      FormEntry("startDate", StringValue(r.startDate)),
      FormEntry("endDate", StringValue(r.endDate)),
      FormEntry("image", FileValue(r.image)) ]
  }

  /** `FormData.get`: the value of the first entry with that key. */
  function Get(form: seq<FormEntry>, key: string): Option<FormValue> {
    if form == [] then None
    else if form[0].key == key then Some(form[0].value)
    else Get(form[1..], key)
  }

  function GetString(form: seq<FormEntry>, key: string): Option<string> {
    match Get(form, key)
    case Some(StringValue(s)) => Some(s)
    case _ => None
  }

  function GetFile(form: seq<FormEntry>, key: string): Option<File> {
    match Get(form, key)
    case Some(FileValue(f)) => Some(f)
    case _ => None
  }

  /** How the receiving side reads a form back: every field present and of its kind, the goal parsed back. */
  function Decode(form: seq<FormEntry>): Option<Request> {
    var title, content, category := GetString(form, "title"), GetString(form, "content"), GetString(form, "challengeCategory");
    var goal, goalDetail := GetString(form, "goal"), GetString(form, "goalDetail");
    var startDate, endDate, image := GetString(form, "startDate"), GetString(form, "endDate"), GetFile(form, "image");
    if title.Some? && content.Some? && category.Some? && CategoryFromName(category.value).Some? && goal.Some?
       && goalDetail.Some? && startDate.Some? && endDate.Some? && image.Some?
    then Some(Request(title.value, content.value, CategoryFromName(category.value).value, ParseInt(goal.value),
                      goalDetail.value, startDate.value, endDate.value, image.value))
    else None
  }

  /** An entry whose key no earlier entry has is what `Get` finds for that key. */
  lemma {:induction false} GetFirstWithKey(form: seq<FormEntry>, i: int)
    requires 0 <= i < |form|
    requires forall j :: 0 <= j < i ==> form[j].key != form[i].key
    ensures Get(form, form[i].key) == Some(form[i].value)
  {
    if i > 0 {
      GetFirstWithKey(form[1..], i - 1);
    }
  }

  lemma CategoryRoundTrip(category: Category)
    ensures CategoryFromName(CategoryName(category)) == Some(category)
  {
  }

  /** The form keys are pairwise different, so every field can be read back. */
  lemma FieldOrderDistinct()
    ensures forall i, j :: 0 <= i < j < |FieldOrder| ==> FieldOrder[i] != FieldOrder[j]
  {
  }

  /** Reading the submitted form back gives exactly the request it was built from. */
  lemma DecodeEncode(r: Request)
    ensures Decode(Encode(r)) == Some(r)
  {
    var form := Encode(r);
    FieldOrderDistinct();
    forall i | 0 <= i < |form|
      ensures Get(form, FieldOrder[i]) == Some(form[i].value)
    {
      GetFirstWithKey(form, i);
    }
    assert GetString(form, "title") == Some(r.title) by { assert FieldOrder[0] == "title"; }
    assert GetString(form, "content") == Some(r.content) by { assert FieldOrder[1] == "content"; }
    assert GetString(form, "challengeCategory") == Some(CategoryName(r.challengeCategory)) by {
      assert FieldOrder[2] == "challengeCategory";
    }
    assert GetString(form, "goal") == Some(IntToString(r.goal)) by { assert FieldOrder[3] == "goal"; }
    assert GetString(form, "goalDetail") == Some(r.goalDetail) by { assert FieldOrder[4] == "goalDetail"; }
    assert GetString(form, "startDate") == Some(r.startDate) by { assert FieldOrder[5] == "startDate"; }
    assert GetString(form, "endDate") == Some(r.endDate) by { assert FieldOrder[6] == "endDate"; }
    assert GetFile(form, "image") == Some(r.image) by { assert FieldOrder[7] == "image"; }
    CategoryRoundTrip(r.challengeCategory);
    ParseIntToString(r.goal);
  }

  /** Different requests give different forms. */
  lemma EncodeInjective(r: Request, s: Request)
    requires Encode(r) == Encode(s)
    ensures r == s
  {
    DecodeEncode(r);
    DecodeEncode(s);
  }

  /** The text inputs, each bound to one string of the form state. */
  datatype TextInput = TitleInput | ContentInput | GoalDetailInput | StartDateInput | EndDateInput

  /** What a submit does: the image alert, or `onSave` with the built form. */
  datatype SubmitOutcome = MissingImageAlert | Submitted(form: seq<FormEntry>)

  /** The state of the modal's form. */
  class ChallengeForm {
    var title: string
    var content: string
    var challengeCategory: Category
    var goal: int
    var goalDetail: string
    var startDate: string
    var endDate: string
    var image: Option<File>

    constructor ()
      ensures title == "" && content == "" && challengeCategory == Distance && goal == 0
      ensures goalDetail == "" && startDate == "" && endDate == "" && image == None
    {
      title, content, challengeCategory, goal := "", "", Distance, 0;
      goalDetail, startDate, endDate, image := "", "", "", None;
    }

    /** The `onChange` of a text input: its own field takes the typed value, the others stay. */
    method HandleTextChange(input: TextInput, value: string)
      modifies this`title, this`content, this`goalDetail, this`startDate, this`endDate
      ensures title == (if input == TitleInput then value else old(title))
      ensures content == (if input == ContentInput then value else old(content))
      ensures goalDetail == (if input == GoalDetailInput then value else old(goalDetail))
      ensures startDate == (if input == StartDateInput then value else old(startDate))
      ensures endDate == (if input == EndDateInput then value else old(endDate))
    {
      match input
      case TitleInput => title := value;
      case ContentInput => content := value;
      case GoalDetailInput => goalDetail := value;
      case StartDateInput => startDate := value;
      case EndDateInput => endDate := value;
    }

    method HandleCategoryChange(category: Category)
      modifies this`challengeCategory
      ensures challengeCategory == category
    {
      challengeCategory := category;
    }

    method HandleGoalChange(value: int)
      modifies this`goal
      ensures goal == value
    {
      goal := value;
    }

    /** The file input: the first picked file becomes the image; picking nothing keeps the previous one. */
    method HandleImageChange(picked: Option<File>)
      modifies this`image
      ensures image == if picked.Some? then picked else old(image)
    {
      if picked.Some? {
        image := picked;
      }
    }

    /** The request the current state stands for, once an image is picked. */
    function Current(): Request
      reads this
      requires image.Some?
    {
      Request(title, content, challengeCategory, goal, goalDetail, startDate, endDate, image.value)
    }

    /**
     * `handleSubmit`: without an image, only the alert; otherwise the form is
     * built entry by entry and handed over once. The state is not changed.
     */
    method HandleSubmit() returns (outcome: SubmitOutcome)
      ensures outcome.MissingImageAlert? <==> image.None?
      ensures outcome.Submitted? ==> outcome.form == Encode(Current())
      ensures outcome.Submitted? ==> Decode(outcome.form) == Some(Current())
    {
      if image.None? {
        return MissingImageAlert;
      }
      var form: seq<FormEntry> := [];
      form := form + [FormEntry("title", StringValue(title))];
      form := form + [FormEntry("content", StringValue(content))];
      form := form + [FormEntry("challengeCategory", StringValue(CategoryName(challengeCategory)))];
      form := form + [FormEntry("goal", StringValue(IntToString(goal)))];
      form := form + [FormEntry("goalDetail", StringValue(goalDetail))];
      form := form + [FormEntry("startDate", StringValue(startDate))];
      form := form + [FormEntry("endDate", StringValue(endDate))];
      form := form + [FormEntry("image", FileValue(image.value))];
      assert form == Encode(Current());
      DecodeEncode(Current());
      outcome := Submitted(form);
    }
  }
}
