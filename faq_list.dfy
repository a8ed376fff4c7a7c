/**
 * The FAQ table with inline editing. At most one row is edited at a time:
 * `editFaqNo` names it and `editableFaq` holds the draft that its inputs show.
 * The `faqs` list itself belongs to the parent and is only read.
 */
module FaqList {
  import opened Common

  datatype Faq = Faq(faqNo: int, question: string, answer: string)

  /** The two inputs of a row being edited, by their `name` attribute. */
  datatype Field = Question | Answer

  /** A row of the table: shown as text, shown as inputs, or the "no FAQ" placeholder. */
  datatype Row =
    | ViewRow(faqNo: int, question: string, answer: string)
    | EditRow(faqNo: int, questionInput: string, answerInput: string)
    | Placeholder

  /** `{ ...faq, [name]: value }`: the draft with one field replaced. */
  function WithField(faq: Faq, field: Field, value: string): (r: Faq)
    ensures r.faqNo == faq.faqNo
    ensures field == Question ==> r.question == value && r.answer == faq.answer
    ensures field == Answer ==> r.answer == value && r.question == faq.question
  {
    match field
    case Question => faq.(question := value)
    case Answer => faq.(answer := value)
  }

  /** `editableFaq?.question || ''` and its answer counterpart: a missing draft shows an empty input. */
  function InputValue(editableFaq: Option<Faq>, field: Field): string {
    match editableFaq
    case None => ""
    case Some(f) => if field == Question then f.question else f.answer
  }

  /** The row of one FAQ: inputs holding the draft when it is the edited one, its own text otherwise. */
  function FaqRow(faq: Faq, editFaqNo: Option<int>, editableFaq: Option<Faq>): Row {
    if editFaqNo == Some(faq.faqNo)
    then EditRow(faq.faqNo, InputValue(editableFaq, Question), InputValue(editableFaq, Answer))
    else ViewRow(faq.faqNo, faq.question, faq.answer)
  }

  /** The table body for a list, the row being edited and the draft. */
  function Rows(faqs: seq<Faq>, editFaqNo: Option<int>, editableFaq: Option<Faq>): seq<Row> {
    if faqs == [] then [Placeholder]
    else seq(|faqs|, i requires 0 <= i < |faqs| => FaqRow(faqs[i], editFaqNo, editableFaq))
  }

  /** An empty list is drawn as exactly one placeholder row, whatever is being edited. */
  lemma EmptyListPlaceholder(editFaqNo: Option<int>, editableFaq: Option<Faq>)
    ensures Rows([], editFaqNo, editableFaq) == [Placeholder]
    ensures forall faqs :: faqs != [] ==> Placeholder !in Rows(faqs, editFaqNo, editableFaq)
  {
    forall faqs | faqs != []
      ensures Placeholder !in Rows(faqs, editFaqNo, editableFaq)
    {
      var rows := Rows(faqs, editFaqNo, editableFaq);
      assert forall i :: 0 <= i < |rows| ==> rows[i] != Placeholder;
    }
  }

  /**
   * A non-empty list gives one row per FAQ, in order. A row shows inputs
   * exactly when its number is `editFaqNo`, and then the inputs show the draft;
   * every other row shows the FAQ's own text.
   */
  lemma RowsEditModeIff(faqs: seq<Faq>, editFaqNo: Option<int>, editableFaq: Option<Faq>, i: int)
    requires faqs != [] && 0 <= i < |faqs|
    ensures var rows := Rows(faqs, editFaqNo, editableFaq);
      && |rows| == |faqs|
      && rows[i].faqNo == faqs[i].faqNo
      && (rows[i].EditRow? <==> editFaqNo == Some(faqs[i].faqNo))
      && (rows[i].EditRow? && editableFaq.Some? ==>
            rows[i].questionInput == editableFaq.value.question && rows[i].answerInput == editableFaq.value.answer)
      && (rows[i].ViewRow? ==> rows[i].question == faqs[i].question && rows[i].answer == faqs[i].answer)
  {
  }

  /** With distinct FAQ numbers, at most one row is in edit mode, and none when nothing is edited. */
  lemma AtMostOneEditRow(faqs: seq<Faq>, editFaqNo: Option<int>, editableFaq: Option<Faq>)
    requires forall a, b :: 0 <= a < b < |faqs| ==> faqs[a].faqNo != faqs[b].faqNo
    ensures var rows := Rows(faqs, editFaqNo, editableFaq);
      forall a, b :: 0 <= a < b < |rows| ==> !(rows[a].EditRow? && rows[b].EditRow?)
    ensures editFaqNo.None? ==> forall row :: row in Rows(faqs, editFaqNo, editableFaq) ==> !row.EditRow?
  {
    var rows := Rows(faqs, editFaqNo, editableFaq);
    if faqs != [] {
      forall a, b | 0 <= a < b < |rows| && rows[a].EditRow?
        ensures !rows[b].EditRow?
      {
        RowsEditModeIff(faqs, editFaqNo, editableFaq, a);
        RowsEditModeIff(faqs, editFaqNo, editableFaq, b);
      }
    }
  }

  /** The state of the FAQ table. */
  class FaqListState {
    const faqs: seq<Faq>
    var editFaqNo: Option<int>
    var editableFaq: Option<Faq>

    /** While a row is being edited there is a draft, and it is the draft of that row. */
    predicate Valid()
      reads this
    {
      editFaqNo.Some? ==> editableFaq.Some? && editableFaq.value.faqNo == editFaqNo.value
    }

    constructor (faqs: seq<Faq>)
      ensures this.faqs == faqs && editFaqNo == None && editableFaq == None
      ensures Valid()
    {
      this.faqs := faqs;
      editFaqNo := None;
      editableFaq := None;
    }

    function TableRows(): seq<Row>
      reads this
    {
      Rows(faqs, editFaqNo, editableFaq)
    }

    /** The edit button of a row: that row is edited, with the FAQ itself as the draft. */
    method HandleEditClick(faq: Faq)
      modifies this`editFaqNo, this`editableFaq
      ensures editFaqNo == Some(faq.faqNo) && editableFaq == Some(faq)
      ensures Valid()
    {
      editFaqNo := Some(faq.faqNo);
      editableFaq := Some(faq);
    }

    /**
     * The save button: with a draft, hands it to `onSave` once (returned as
     * `saved`) and leaves edit mode, dropping the draft; without one, nothing happens.
     */
    method HandleSaveClick() returns (saved: Option<Faq>)
      requires Valid()
      modifies this`editFaqNo, this`editableFaq
      ensures saved == old(editableFaq)
      ensures saved.Some? ==> editFaqNo == None && editableFaq == None
      ensures saved.None? ==> editFaqNo == old(editFaqNo) && editableFaq == old(editableFaq)
      ensures Valid()
    {
      saved := editableFaq;
      if editableFaq.Some? {
        editFaqNo := None;
        editableFaq := None;
      }
    }

    /** An input of the edited row: replaces that one field of the draft; without a draft, nothing happens. */
    method HandleInputChange(field: Field, value: string)
      requires Valid()
      modifies this`editableFaq
      ensures old(editableFaq).Some? ==> editableFaq == Some(WithField(old(editableFaq).value, field, value))
      ensures old(editableFaq).None? ==> editableFaq == None
      ensures Valid()
    {
      if editableFaq.Some? {
        editableFaq := Some(WithField(editableFaq.value, field, value));
      }
    }

    /** The cancel button: leaves edit mode but keeps the draft. */
    method Cancel()
      modifies this`editFaqNo
      ensures editFaqNo == None
      ensures Valid()
    {
      editFaqNo := None;
    }
  }

  /**
   * Editing the question of the only FAQ and saving hands the edited FAQ to
   * the parent and draws the row as text again; the list itself is unchanged.
   */
  method EditSaveScenario() {
    var list := new FaqListState([Faq(1, "Q1", "A1")]);
    assert list.TableRows() == [ViewRow(1, "Q1", "A1")];
    list.HandleEditClick(Faq(1, "Q1", "A1"));
    assert list.TableRows() == [EditRow(1, "Q1", "A1")];
    list.HandleInputChange(Question, "Q2");
    assert list.TableRows() == [EditRow(1, "Q2", "A1")];
    var saved := list.HandleSaveClick();
    assert saved == Some(Faq(1, "Q2", "A1"));
    assert list.TableRows() == [ViewRow(1, "Q1", "A1")];
  }
}
