/**
 * The details panel: a five-field form bound to the selected record. It is
 * patched from the bound row, validated field by field, and turned back into
 * a record (text fields trimmed) when the user saves.
 */
module DetailsPanel {
  import opened Wrappers
  import opened Records
  import Text

  /**
   * The grade control's value: empty (the control starts as `''`) or a
   * number. Only whole numbers are modelled.
   */
  datatype GradeValue = Blank | Number(n: int)

  datatype Form = Form(traineeId: string, traineeName: string, subject: string, grade: GradeValue, date: string)

  /** The errors the grade control's validators report. */
  datatype GradeError = Required | Min | Max

  /**
   * `Validators.required`, `Validators.min(0)` and `Validators.max(100)`:
   * an empty value fails only `required` (the range validators skip it), a
   * number fails `min` below 0 and `max` above 100.
   */
  function GradeErrors(g: GradeValue): (errors: set<GradeError>)
    ensures errors == {} <==> g.Number? && 0 <= g.n <= 100
    ensures Required in errors <==> g.Blank?
  {
    match g
    case Blank => {Required}
    case Number(n) => (if n < 0 then {Min} else {}) + (if n > 100 then {Max} else {})
  }

  /**
   * `Validators.required` on a text control: the empty string fails, anything
   * else passes (whitespace is not trimmed first).
   */
  predicate Filled(s: string) {
    s != ""
  }

  /** The form is valid when no control reports an error. */
  predicate Valid(f: Form) {
    && Filled(f.traineeId) && Filled(f.traineeName) && Filled(f.subject) && Filled(f.date)
    && GradeErrors(f.grade) == {}
  }

  /** Valid exactly when the four texts are non-empty and the grade is a number in 0..100. */
  lemma ValidIff(f: Form)
    ensures Valid(f) <==>
            && f.traineeId != "" && f.traineeName != "" && f.subject != "" && f.date != ""
            && f.grade.Number? && 0 <= f.grade.n <= 100
  {
  }

  /** The range check of the grade control at its edges. */
  lemma GradeRangeExamples()
    ensures GradeErrors(Number(101)) == {Max}
    ensures GradeErrors(Number(-1)) == {Min}
    ensures GradeErrors(Number(100)) == {} && GradeErrors(Number(0)) == {}
  {
  }

  /** The form as the panel builds it: every control empty. */
  function EmptyForm(): (f: Form)
    ensures !Valid(f)
    ensures f.grade == Blank
  {
    Form("", "", "", Blank, "")
  }

  /** What `ngOnChanges` resets the form to when no row is bound. */
  function ResetForm(): (f: Form)
    ensures !Valid(f)
    ensures GradeErrors(f.grade) == {}
  {
    Form("", "", "", Number(0), "")
  }

  /** What `ngOnChanges` patches the form to from a bound row: its five editable fields. */
  function FormOf(r: TestResult): (f: Form)
    ensures Valid(f) <==>
            && r.traineeId != "" && r.traineeName != "" && r.subject != "" && r.date != ""
            && 0 <= r.grade <= 100
  {
    Form(r.traineeId, r.traineeName, r.subject, Number(r.grade), r.date)
  }

  /**
   * `onSaveClick`'s record: the bound row's id, or `freshId` when no row is
   * bound (the form has no id control); the three text fields trimmed; the
   * grade as a number, an empty grade reading as 0; the date as it is.
   */
  function SaveRecord(row: Option<TestResult>, f: Form, freshId: string): (saved: TestResult)
    ensures saved.id == if row.Some? then row.value.id else freshId
    ensures saved.traineeId == Text.Trim(f.traineeId)
    ensures saved.traineeName == Text.Trim(f.traineeName)
    ensures saved.subject == Text.Trim(f.subject)
    ensures saved.grade == if f.grade.Number? then f.grade.n else 0
    ensures saved.date == f.date
  {
    TestResult(
      if row.Some? then row.value.id else freshId,
      Text.Trim(f.traineeId), Text.Trim(f.traineeName), Text.Trim(f.subject),
      match f.grade case Blank => 0 case Number(n) => n,
      f.date)
  }

  /**
   * Saving right after a row was patched in gives that row back with its
   * three text fields trimmed, whatever fresh id was at hand.
   */
  lemma SaveAfterPatch(r: TestResult, freshId: string)
    ensures SaveRecord(Some(r), FormOf(r), freshId) ==
            r.(traineeId := Text.Trim(r.traineeId), traineeName := Text.Trim(r.traineeName),
               subject := Text.Trim(r.subject))
  {
  }

  /** A row whose text fields are already trimmed comes back from patch-and-save unchanged. */
  lemma SaveOfTrimmedRowIsIdentity(r: TestResult, freshId: string)
    requires Text.Trim(r.traineeId) == r.traineeId && Text.Trim(r.traineeName) == r.traineeName
    requires Text.Trim(r.subject) == r.subject
    ensures SaveRecord(Some(r), FormOf(r), freshId) == r
  {
  }

  /** Saving is idempotent: patching a saved record back in and saving again changes nothing. */
  lemma SaveIdempotent(row: Option<TestResult>, f: Form, freshId: string, freshId': string)
    ensures var saved := SaveRecord(row, f, freshId);
            SaveRecord(Some(saved), FormOf(saved), freshId') == saved
  {
    Text.TrimIdempotent(f.traineeId);
    Text.TrimIdempotent(f.traineeName);
    Text.TrimIdempotent(f.subject);
  }

  /**
   * `required` does not trim, so a name of blanks passes validation and is
   * then saved as the empty string.
   */
  lemma BlankNamePassesAndSavesEmpty(freshId: string)
    ensures var f := Form("t1", "  ", "Math", Number(90), "2024-01-01");
            Valid(f) && SaveRecord(None, f, freshId).traineeName == ""
  {
    assert Text.LeadingWhite("  ") == 2 by {
      assert Text.LeadingWhite(" ") == 1;
    }
  }

  /** `onRemove` asks to remove the bound row's id, and only when a row with a non-empty id is bound. */
  function RemoveTarget(row: Option<TestResult>): (target: Option<string>)
    ensures target.Some? <==> row.Some? && row.value.id != ""
    ensures target.Some? ==> target.value == row.value.id
  {
    if row.Some? && row.value.id != "" then Some(row.value.id) else None
  }

  /** The panel: the bound row and the form state. */
  class DetailsPanelComponent {
    var row: Option<TestResult>
    var form: Form

    /** The panel starts unbound with an empty, invalid form. */
    constructor ()
      ensures row == None && form == EmptyForm()
      ensures !Valid(form)
    {
      row := None;
      form := EmptyForm();
    }

    /** The `row` input is bound; the form follows only on `ngOnChanges`. */
    method BindRow(r: Option<TestResult>)
      modifies this
      ensures row == r && form == old(form)
    {
      row := r;
    }

    /** `ngOnChanges`: patch the form from the bound row, or reset it when none is bound. */
    method NgOnChanges()
      modifies this
      ensures form == if row.Some? then FormOf(row.value) else ResetForm()
      ensures row == old(row)
    {
      if row.Some? {
        form := FormOf(row.value);
      } else {
        form := ResetForm();
      }
    }

    /** `patchValue({ grade })`, as the user editing the grade does. */
    method SetGrade(g: GradeValue)
      modifies this
      ensures form == old(form).(grade := g) && row == old(row)
    {
      form := form.(grade := g);
    }

    /** `onSaveClick`: the record emitted to the page; `freshId` stands for the generated id. */
    method OnSaveClick(freshId: string) returns (saved: TestResult)
      ensures saved == SaveRecord(row, form, freshId)
      ensures row.Some? ==> saved.id == row.value.id
    {
      saved := SaveRecord(row, form, freshId);
    }

    /** `onRemove`: the id emitted to the page, if any. */
    method OnRemove() returns (target: Option<string>)
      ensures target.Some? <==> row.Some? && row.value.id != ""
      ensures target.Some? ==> target.value == row.value.id
    {
      target := RemoveTarget(row);
    }
  }

  /**
   * Binding a row, patching the form and saving gives the row with trimmed
   * texts; binding nothing and patching gives the reset form, which is invalid.
   */
  method PatchThenSave(r: TestResult, freshId: string) returns (saved: TestResult, cleared: Form)
    ensures saved == r.(traineeId := Text.Trim(r.traineeId), traineeName := Text.Trim(r.traineeName),
                        subject := Text.Trim(r.subject))
    ensures cleared == ResetForm() && !Valid(cleared)
  {
    var panel := new DetailsPanelComponent();
    panel.BindRow(Some(r));
    panel.NgOnChanges();
    saved := panel.OnSaveClick(freshId);
    SaveAfterPatch(r, freshId);
    panel.BindRow(None);
    panel.NgOnChanges();
    cleared := panel.form;
  }

  /** The grade edits of a bound valid row: 101 and -1 make the form invalid, 0 and 100 keep it valid. */
  method GradeEdits(r: TestResult) returns (at101: bool, atMinus1: bool, at100: bool, at0: bool)
    requires r.traineeId != "" && r.traineeName != "" && r.subject != "" && r.date != ""
    ensures !at101 && !atMinus1 && at100 && at0
  {
    var panel := new DetailsPanelComponent();
    panel.BindRow(Some(r));
    panel.NgOnChanges();
    panel.SetGrade(Number(101));
    at101 := Valid(panel.form);
    panel.SetGrade(Number(-1));
    atMinus1 := Valid(panel.form);
    panel.SetGrade(Number(100));
    at100 := Valid(panel.form);
    panel.SetGrade(Number(0));
    at0 := Valid(panel.form);
  }
}
