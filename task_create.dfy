/** Posting a task (src/pages/TaskCreate.jsx): a two-step form whose steps
    are validated before moving on and before the task is inserted. */
module TaskCreate {
  import opened Wrappers
  import opened Strings
  import Seqs

  /** `formData`: the value of each named input. */
  type Form = map<string, string>

  /** `errors`: each field's message, `None` once cleared to null. */
  type Errors = map<string, Option<string>>

  /** The six fields of the form. */
  predicate HasFields(form: Form) {
    "title" in form && "description" in form && "category" in form
    && "budget_min" in form && "budget_max" in form && "location" in form
  }

  const EmptyForm: Form := map["title" := "", "description" := "", "category" := "",
                               "budget_min" := "", "budget_max" := "", "location" := ""]

  /** `newErrors` as `validateStep1` builds it. */
  function Step1Errors(form: Form): (e: Errors)
    requires HasFields(form)
    ensures e.Keys <= {"title", "description", "category"}
    ensures "title" in e <==> IsBlank(form["title"])
    ensures "description" in e <==> IsBlank(form["description"])
    ensures "category" in e <==> IsBlank(form["category"])
    ensures "title" in e ==> e["title"] == Some("Title is required")
    ensures "description" in e ==> e["description"] == Some("Description is required")
    ensures "category" in e ==> e["category"] == Some("Category is required")
  {
    var e0: Errors := map[];
    var e1 := if IsBlank(form["title"]) then e0["title" := Some("Title is required")] else e0;
    var e2 := if IsBlank(form["description"]) then e1["description" := Some("Description is required")] else e1;
    if IsBlank(form["category"]) then e2["category" := Some("Category is required")] else e2
  }

  /** `newErrors` as `validateStep2` builds it: the budgets are checked
      untrimmed, the location trimmed. */
  function Step2Errors(form: Form): (e: Errors)
    requires HasFields(form)
    ensures e.Keys <= {"budget_min", "budget_max", "location"}
    ensures "budget_min" in e <==> form["budget_min"] == ""
    ensures "budget_max" in e <==> form["budget_max"] == ""
    ensures "location" in e <==> IsBlank(form["location"])
    ensures "budget_min" in e ==> e["budget_min"] == Some("Min budget is required")
    ensures "budget_max" in e ==> e["budget_max"] == Some("Max budget is required")
    ensures "location" in e ==> e["location"] == Some("Location is required")
  {
    var e0: Errors := map[];
    var e1 := if form["budget_min"] == "" then e0["budget_min" := Some("Min budget is required")] else e0;
    var e2 := if form["budget_max"] == "" then e1["budget_max" := Some("Max budget is required")] else e1;
    if IsBlank(form["location"]) then e2["location" := Some("Location is required")] else e2
  }

  /** `Object.keys(newErrors).length === 0` for step 1. */
  function Step1Valid(form: Form): (ok: bool)
    requires HasFields(form)
    ensures ok <==> !IsBlank(form["title"]) && !IsBlank(form["description"]) && !IsBlank(form["category"])
  {
    var e := Step1Errors(form);
    assert "title" !in e && "description" !in e && "category" !in e ==> e == map[];
    e == map[]
  }

  /** The same for step 2. */
  function Step2Valid(form: Form): (ok: bool)
    requires HasFields(form)
    ensures ok <==> form["budget_min"] != "" && form["budget_max"] != "" && !IsBlank(form["location"])
  {
    var e := Step2Errors(form);
    assert "budget_min" !in e && "budget_max" !in e && "location" !in e ==> e == map[];
    e == map[]
  }

  /** Spaces do not make a title: a title of only white space fails step 1. */
  lemma WhitespaceTitleFails(form: Form)
    requires HasFields(form) && AllWhitespace(form["title"])
    ensures !Step1Valid(form)
  {
    BlankIffAllWhitespace(form["title"]);
  }

  /** A photo chosen for the task: the file and its preview URL. */
  datatype Image = Image(file: string, preview: string)

  /** The row the submit inserts. Budgets keep their text; `None` is null. */
  datatype TaskRow = TaskRow(title: string, description: string, budget_min: Option<string>,
                             budget_max: Option<string>, location: string, created_by: string,
                             category: string, photos: seq<Option<string>>)

  /** What a submit ends in. */
  datatype SubmitOutcome = Invalid | SignInRequired | Created | Failed

  /** The page's state with the tasks it inserts. */
  class TaskForm {
    var step: int
    var loading: bool
    var images: seq<Image>
    var errors: Errors
    var formData: Form
    var tasks: seq<TaskRow>

    predicate Valid()
      reads this
    {
      HasFields(formData)
    }

    constructor (table: seq<TaskRow>)
      ensures Valid() && step == 1 && !loading && images == [] && errors == map[]
      ensures formData == EmptyForm && tasks == table
    {
      step := 1;
      loading := false;
      images := [];
      errors := map[];
      formData := EmptyForm;
      tasks := table;
    }

    /** `validateStep1()`: the error map is replaced by the failures alone. */
    method ValidateStep1() returns (ok: bool)
      requires Valid()
      modifies this
      ensures Valid() && ok == Step1Valid(old(formData)) && errors == Step1Errors(old(formData))
      ensures formData == old(formData) && step == old(step) && loading == old(loading)
      ensures images == old(images) && tasks == old(tasks)
    {
      errors := Step1Errors(formData);
      ok := |errors.Keys| == 0;
      assert ok <==> errors == map[] by {
        if errors != map[] {
          var key :| key in errors;
        }
      }
    }

    method ValidateStep2() returns (ok: bool)
      requires Valid()
      modifies this
      ensures Valid() && ok == Step2Valid(old(formData)) && errors == Step2Errors(old(formData))
      ensures formData == old(formData) && step == old(step) && loading == old(loading)
      ensures images == old(images) && tasks == old(tasks)
    {
      errors := Step2Errors(formData);
      ok := |errors.Keys| == 0;
      assert ok <==> errors == map[] by {
        if errors != map[] {
          var key :| key in errors;
        }
      }
    }

    /** `handleChange` for the input called `name`: only that field takes the
        new value, and only its error is cleared, and only when it was set. */
    method HandleChange(name: string, value: string)
      requires Valid()
      modifies this
      ensures Valid() && formData == old(formData)[name := value]
      ensures errors == (if name in old(errors) && old(errors)[name].Some? && old(errors)[name].value != ""
                         then old(errors)[name := None] else old(errors))
      ensures step == old(step) && loading == old(loading) && images == old(images) && tasks == old(tasks)
    {
      formData := formData[name := value];
      if name in errors && errors[name].Some? && errors[name].value != "" {
        errors := errors[name := None];
      }
    }

    /** "Next: Details": the second step opens only when the first is valid. */
    method Next()
      requires Valid()
      modifies this
      ensures Valid() && step == (if Step1Valid(old(formData)) then 2 else old(step))
      ensures errors == Step1Errors(old(formData)) && formData == old(formData)
      ensures images == old(images) && tasks == old(tasks) && loading == old(loading)
    {
      var ok := ValidateStep1();
      if ok {
        step := 2;
      }
    }

    /** `handleImageUpload`: a chosen file is appended with its preview. */
    method AddImage(file: Option<string>, preview: string)
      requires Valid()
      modifies this
      ensures Valid() && images == (if file.Some? then old(images) + [Image(file.value, preview)] else old(images))
      ensures formData == old(formData) && errors == old(errors) && step == old(step)
      ensures loading == old(loading) && tasks == old(tasks)
    {
      if file.Some? {
        images := images + [Image(file.value, preview)];
      }
    }

    /** The remove button of image `i`: `images.filter((_, idx) => idx !== i)`. */
    method RemoveImage(i: int)
      requires Valid()
      modifies this
      ensures Valid() && images == Seqs.RemoveAt(old(images), i)
      ensures formData == old(formData) && errors == old(errors) && step == old(step)
      ensures loading == old(loading) && tasks == old(tasks)
    {
      images := Seqs.RemoveAt(images, i);
    }

    /** `handleSubmit()`. `uploads` is what `uploadImage` gives for each image
        (`uploadFails` when one throws), `insertFails` says the insert
        reports an error. An invalid step 2 or a missing user stops before
        anything is uploaded. */
    method HandleSubmit(user: Option<string>, uploads: seq<Option<string>>, uploadFails: bool, insertFails: bool)
      returns (outcome: SubmitOutcome)
      requires Valid() && |uploads| == |images|
      modifies this
      ensures Valid() && formData == old(formData) && images == old(images) && step == old(step)
      ensures errors == Step2Errors(old(formData))
      ensures !Step2Valid(old(formData)) ==> outcome == Invalid && tasks == old(tasks) && loading == old(loading)
      ensures Step2Valid(old(formData)) && user.None? ==>
                outcome == SignInRequired && tasks == old(tasks) && loading == old(loading)
      ensures Step2Valid(old(formData)) && user.Some? ==> !loading
      ensures Step2Valid(old(formData)) && user.Some? && (uploadFails || insertFails) ==>
                outcome == Failed && tasks == old(tasks)
      ensures Step2Valid(old(formData)) && user.Some? && !uploadFails && !insertFails ==>
                outcome == Created
                && tasks == old(tasks) + [TaskRow(old(formData)["title"], old(formData)["description"],
                                                  Some(old(formData)["budget_min"]), Some(old(formData)["budget_max"]),
                                                  old(formData)["location"], user.value, old(formData)["category"], uploads)]
    {
      var ok := ValidateStep2();
      if !ok {
        return Invalid;
      }
      if user.None? {
        return SignInRequired;
      }
      loading := true;
      if uploadFails || insertFails {
        outcome := Failed;
      } else {
        var row := TaskRow(formData["title"], formData["description"],
                           if formData["budget_min"] != "" then Some(formData["budget_min"]) else None,
                           if formData["budget_max"] != "" then Some(formData["budget_max"]) else None,
                           formData["location"], user.value, formData["category"], uploads);
        tasks := tasks + [row];
        outcome := Created;
      }
      loading := false;
    }
  }
}
