/** The developer registration form: its field values, the skill list being
    assembled, the messages it shows, and the submit procedure that validates,
    checks for an existing developer with the same email, writes, and resets. */
module AddDeveloperForm {
  import opened Types
  import opened Text
  import opened FirebaseService

  const REQUIRED_FIELDS_MESSAGE := "Name and Email are required fields."
  const DUPLICATE_EMAIL_MESSAGE := "A developer with this email already exists."
  const CREATE_FAILED_MESSAGE := "Failed to create developer. Please try again."

  /** The confirmation `Developer "<name>" created successfully.` */
  function SuccessMessage(name: string): string {
    "Developer \"" + name + "\" created successfully."
  }

  /** The editable fields of the form. */
  datatype FormData = FormData(
    name: string,
    employeeId: string,
    email: string,
    location: string,
    role: string,
    project: string,
    active: bool)

  /** `initialFormState`: every text field empty, `active` checked. */
  const INITIAL_FORM_STATE := FormData("", "", "", "", "", "", true)

  /** The text inputs of the form, by their `name` attribute. */
  datatype TextField = NameField | EmployeeIdField | EmailField | LocationField | RoleField | ProjectField

  /** The value of the text input `field`. */
  function TextOf(form: FormData, field: TextField): string {
    match field
    case NameField => form.name
    case EmployeeIdField => form.employeeId
    case EmailField => form.email
    case LocationField => form.location
    case RoleField => form.role
    case ProjectField => form.project
  }

  /** The form data after the text input `field` takes the value `value`
      (`{ ...prev, [name]: value }`): that input changes, no other does. */
  function WithText(form: FormData, field: TextField, value: string): (r: FormData)
    ensures TextOf(r, field) == value
    ensures forall other :: other != field ==> TextOf(r, other) == TextOf(form, other)
    ensures r.active == form.active
  {
    match field
    case NameField => form.(name := value)
    case EmployeeIdField => form.(employeeId := value)
    case EmailField => form.(email := value)
    case LocationField => form.(location := value)
    case RoleField => form.(role := value)
    case ProjectField => form.(project := value)
  }

  /** The calls the submit procedure makes to the data-access layer. */
  datatype ServiceCall = ExistsCall(email: string) | WriteCall(data: DeveloperData)

  predicate HasSkill(skills: seq<Skill>, name: string) {
    exists i :: 0 <= i < |skills| && skills[i].name == name
  }

  /** No two entries of the list share a name. */
  predicate DistinctNames(skills: seq<Skill>) {
    forall i, j :: 0 <= i < j < |skills| ==> skills[i].name != skills[j].name
  }

  /** What the form keeps true of its skill list: names present and distinct,
      proficiencies within the 1-5 choices the picker offers. */
  predicate WellFormedSkills(skills: seq<Skill>) {
    && DistinctNames(skills)
    && forall i :: 0 <= i < |skills| ==> skills[i].name != "" && 1 <= skills[i].proficiency <= 5
  }

  /** The skill list after "Add Skill": the chosen skill is appended when a skill
      is chosen and the list has no entry of that name; otherwise nothing changes. */
  function AddSkill(skills: seq<Skill>, name: string, proficiency: int): (r: seq<Skill>)
    ensures r == skills || r == skills + [Skill(name, proficiency)]
    ensures r != skills <==> name != "" && !HasSkill(skills, name)
    ensures name != "" ==> HasSkill(r, name)
  {
    if name != "" && !HasSkill(skills, name) then
      var r := skills + [Skill(name, proficiency)];
      assert r[|skills|].name == name;
      r
    else skills
  }

  /** The skill list after removing `name`: the entries of another name, in order. */
  function RemoveSkill(skills: seq<Skill>, name: string): (r: seq<Skill>)
    ensures |r| <= |skills|
    ensures forall i :: 0 <= i < |r| ==> r[i].name != name
  {
    if skills == [] then []
    else (if skills[0].name == name then [] else [skills[0]]) + RemoveSkill(skills[1..], name)
  }

  /** Exactly the entries of another name remain. */
  lemma {:induction false} RemoveSkillMembers(skills: seq<Skill>, name: string)
    ensures forall s :: s in RemoveSkill(skills, name) <==> s in skills && s.name != name
  {
    if skills != [] {
      RemoveSkillMembers(skills[1..], name);
      assert skills == [skills[0]] + skills[1..];
    }
  }

  /** Adding never breaks the form's skill-list invariant, so names stay distinct. */
  lemma AddSkillKeepsWellFormed(skills: seq<Skill>, name: string, proficiency: int)
    requires WellFormedSkills(skills)
    requires 1 <= proficiency <= 5
    ensures WellFormedSkills(AddSkill(skills, name, proficiency))
  {
  }

  /** Removal keeps the remaining entries in their order: it acts on each part of
      the list separately. */
  lemma {:induction false} RemoveSkillAppend(a: seq<Skill>, b: seq<Skill>, name: string)
    ensures RemoveSkill(a + b, name) == RemoveSkill(a, name) + RemoveSkill(b, name)
  {
    if a == [] {
      assert a + b == b;
    } else {
      assert (a + b)[0] == a[0] && (a + b)[1..] == a[1..] + b;
      RemoveSkillAppend(a[1..], b, name);
    }
  }

  /** Removing a name that no entry has leaves the list as it was. */
  lemma {:induction false} RemoveAbsentSkill(skills: seq<Skill>, name: string)
    requires !HasSkill(skills, name)
    ensures RemoveSkill(skills, name) == skills
  {
    if skills != [] {
      RemoveAbsentSkill(skills[1..], name);
      assert [skills[0]] + skills[1..] == skills;
    }
  }

  /** An entry whose name the rest of a well-formed list lacks can be put in front. */
  lemma ConsKeepsWellFormed(skill: Skill, rest: seq<Skill>)
    requires WellFormedSkills(rest) && !HasSkill(rest, skill.name)
    requires skill.name != "" && 1 <= skill.proficiency <= 5
    ensures WellFormedSkills([skill] + rest)
  {
    var r := [skill] + rest;
    assert forall i :: 1 <= i < |r| ==> r[i] == rest[i - 1];
  }

  /** Removal keeps only entries of the list, so it adds no name. */
  lemma RemoveSkillAddsNoName(skills: seq<Skill>, name: string, other: string)
    requires !HasSkill(skills, other)
    ensures !HasSkill(RemoveSkill(skills, name), other)
  {
    RemoveSkillMembers(skills, name);
    var r := RemoveSkill(skills, name);
    forall i | 0 <= i < |r| ensures r[i].name != other {
      assert r[i] in r;
    }
  }

  /** Removal keeps the form's skill-list invariant. */
  lemma {:induction false} RemoveSkillKeepsWellFormed(skills: seq<Skill>, name: string)
    requires WellFormedSkills(skills)
    ensures WellFormedSkills(RemoveSkill(skills, name))
  {
    if skills != [] {
      var tail := skills[1..];
      assert WellFormedSkills(tail) && !HasSkill(tail, skills[0].name) by {
        assert forall i :: 0 <= i < |tail| ==> tail[i] == skills[i + 1];
      }
      RemoveSkillKeepsWellFormed(tail, name);
      if skills[0].name != name {
        RemoveSkillAddsNoName(tail, name, skills[0].name);
        ConsKeepsWellFormed(skills[0], RemoveSkill(tail, name));
      }
    }
  }

  /** Removing a skill just added restores the list: remove undoes add. */
  lemma RemoveUndoesAdd(skills: seq<Skill>, name: string, proficiency: int)
    requires !HasSkill(skills, name)
    ensures RemoveSkill(AddSkill(skills, name, proficiency), name) == skills
  {
    RemoveAbsentSkill(skills, name);
    if name != "" {
      RemoveSkillAppend(skills, [Skill(name, proficiency)], name);
    }
  }

  /** The record the submit procedure writes: the form fields with the email
      normalised, plus the skill list. */
  function NewDeveloper(form: FormData, skills: seq<Skill>): (record: DeveloperData)
    ensures record.email == Normalize(form.email)
    ensures record.skills == skills
    ensures record.name == form.name && record.employeeId == form.employeeId
    ensures record.location == form.location && record.role == form.role
    ensures record.project == form.project && record.active == form.active
  {
    DeveloperRecord(form, Normalize(form.email), skills)
  }

  /** The form fields with `key` in place of the email, plus the skill list. */
  function DeveloperRecord(form: FormData, key: string, skills: seq<Skill>): (record: DeveloperData)
    ensures record.email == key && record.skills == skills
    ensures record.name == form.name && record.employeeId == form.employeeId
    ensures record.location == form.location && record.role == form.role
    ensures record.project == form.project && record.active == form.active
  {
    DeveloperData(form.name, form.employeeId, key, form.location,
                  form.role, form.project, form.active, skills)
  }

  /** The form checks the normalised email and the store re-normalises the
      written record's email: both use the same key, so once the write is
      applied the existence check for the form's email succeeds. */
  lemma WrittenRecordIsFound(docs: map<string, DeveloperData>, form: FormData, skills: seq<Skill>)
    ensures Exists(Upsert(docs, NewDeveloper(form, skills)), form.email)
    ensures Exists(Upsert(docs, NewDeveloper(form, skills)), Normalize(form.email))
  {
    NormalizeIdempotent(form.email);
  }

  /** An email of spaces only passes the required-field check (which looks at the
      raw value) and is checked and written under the empty key. */
  lemma BlankEmailPassesValidation(form: FormData, skills: seq<Skill>)
    requires form.name != "" && form.email != "" && AllSpaces(form.email)
    ensures NewDeveloper(form, skills).email == ""
  {
    NormalizeBlank(form.email);
  }

  /** The required-field check of the submit procedure: it looks at the raw
      name and email. */
  predicate RequiredMissing(form: FormData) {
    form.name == "" || form.email == ""
  }

  /** The submit procedure saves the record: both required fields are present,
      the existence check says "not found" and the write succeeds. */
  predicate Saved(form: FormData, existsReply: Reply<bool>, writeReply: Reply<()>) {
    !RequiredMissing(form) && existsReply == Ok(false) && writeReply.Ok?
  }

  /** The calls the submit procedure makes, in order: none when a required field
      is missing, else the check of the normalised email, followed by the write
      of the form's record when the check says "not found". */
  function SubmitCalls(form: FormData, skills: seq<Skill>, existsReply: Reply<bool>): seq<ServiceCall> {
    if RequiredMissing(form) then []
    else if existsReply == Ok(false) then [ExistsCall(Normalize(form.email)), WriteCall(NewDeveloper(form, skills))]
    else [ExistsCall(Normalize(form.email))]
  }

  /** The error the submit procedure leaves showing. */
  function SubmitError(form: FormData, existsReply: Reply<bool>, writeReply: Reply<()>): Option<string> {
    if RequiredMissing(form) then Some(REQUIRED_FIELDS_MESSAGE)
    else if existsReply == Ok(true) then Some(DUPLICATE_EMAIL_MESSAGE)
    else if Saved(form, existsReply, writeReply) then None
    else Some(CREATE_FAILED_MESSAGE)
  }

  /** The submit procedure writes at most once, and only after the check of the
      same key said "not found": a registered email is never written again. */
  lemma WriteOnlyWhenNew(form: FormData, skills: seq<Skill>, existsReply: Reply<bool>, record: DeveloperData)
    ensures |SubmitCalls(form, skills, existsReply)| <= 2
    ensures WriteCall(record) in SubmitCalls(form, skills, existsReply) ==>
      && existsReply == Ok(false)
      && SubmitCalls(form, skills, existsReply)[0] == ExistsCall(record.email)
      && record == NewDeveloper(form, skills)
  {
  }

  /** No error is left showing exactly when the record was saved. */
  lemma ErrorUnlessSaved(form: FormData, existsReply: Reply<bool>, writeReply: Reply<()>)
    ensures SubmitError(form, existsReply, writeReply) == None <==> Saved(form, existsReply, writeReply)
  {
  }

  class DeveloperForm {
    var formData: FormData
    var skills: seq<Skill>
    var skillCatalog: seq<string>
    var currentSkill: string
    var currentProficiency: int
    var isLoading: bool
    var error: Option<string>
    var success: Option<string>

    ghost predicate Valid()
      reads this
    {
      WellFormedSkills(skills) && 1 <= currentProficiency <= 5
    }

    constructor ()
      ensures Valid()
      ensures formData == INITIAL_FORM_STATE && skills == [] && skillCatalog == []
      ensures currentSkill == "" && currentProficiency == 3
      ensures !isLoading && error == None && success == None
    {
      formData := INITIAL_FORM_STATE;
      skills := [];
      skillCatalog := [];
      currentSkill := "";
      currentProficiency := 3;
      isLoading := false;
      error := None;
      success := None;
    }

    /** The mount effect once the catalog has arrived: keep it, and pre-select
        its first entry when there is one. */
    method LoadSkillCatalog(catalog: seq<string>)
      requires Valid()
      modifies this
      ensures Valid()
      ensures skillCatalog == catalog
      ensures currentSkill == if catalog != [] then catalog[0] else old(currentSkill)
      ensures formData == old(formData) && skills == old(skills)
      ensures currentProficiency == old(currentProficiency) && isLoading == old(isLoading)
      ensures error == old(error) && success == old(success)
    {
      skillCatalog := catalog;
      if |catalog| > 0 {
        currentSkill := catalog[0];
      }
    }

    /** `handleInputChange` for a text input. */
    method HandleInputChange(field: TextField, value: string)
      requires Valid()
      modifies this`formData
      ensures Valid()
      ensures formData == WithText(old(formData), field, value)
    {
      formData := WithText(formData, field, value);
    }

    /** `handleInputChange` for the "active" checkbox. */
    method HandleActiveChange(checked: bool)
      requires Valid()
      modifies this`formData
      ensures Valid()
      ensures formData == old(formData).(active := checked)
    {
      formData := formData.(active := checked);
    }

    /** The skill picker's change handler. */
    method SelectSkill(name: string)
      requires Valid()
      modifies this`currentSkill
      ensures Valid() && currentSkill == name
    {
      currentSkill := name;
    }

    /** The proficiency picker's change handler; it offers the values 1 to 5. */
    method SelectProficiency(proficiency: int)
      requires Valid()
      requires 1 <= proficiency <= 5
      modifies this`currentProficiency
      ensures Valid() && currentProficiency == proficiency
    {
      currentProficiency := proficiency;
    }

    /** `handleAddSkill`. */
    method HandleAddSkill()
      requires Valid()
      modifies this`skills
      ensures Valid()
      ensures skills == AddSkill(old(skills), currentSkill, currentProficiency)
    {
      AddSkillKeepsWellFormed(skills, currentSkill, currentProficiency);
      skills := AddSkill(skills, currentSkill, currentProficiency);
    }

    /** `handleRemoveSkill(name)`. */
    method HandleRemoveSkill(name: string)
      requires Valid()
      modifies this`skills
      ensures Valid()
      ensures skills == RemoveSkill(old(skills), name)
    {
      RemoveSkillKeepsWellFormed(skills, name);
      skills := RemoveSkill(skills, name);
    }

    /** `resetForm`: fields back to `initialFormState`, no skills, no messages. */
    method ResetForm()
      requires Valid()
      modifies this`formData, this`skills, this`error, this`success
      ensures Valid()
      ensures formData == INITIAL_FORM_STATE && skills == []
      ensures error == None && success == None
    {
      formData := INITIAL_FORM_STATE;
      skills := [];
      error := None;
      success := None;
    }

    /** The success tail of the submit procedure as written: the confirmation is
        set and the reset that follows clears it again. */
    method ConfirmCreated(name: string)
      requires Valid()
      modifies this`formData, this`skills, this`error, this`success
      ensures Valid()
      ensures formData == INITIAL_FORM_STATE && skills == [] && error == None
      ensures success == None
    {
      success := Some(SuccessMessage(name));
      ResetForm();
    }

    /** The success tail as evidently intended: reset the form, then show the
        confirmation naming the developer. */
    method ConfirmCreatedIntended(name: string)
      requires Valid()
      modifies this`formData, this`skills, this`error, this`success
      ensures Valid()
      ensures formData == INITIAL_FORM_STATE && skills == [] && error == None
      ensures success == Some(SuccessMessage(name))
    {
      ResetForm();
      success := Some(SuccessMessage(name));
    }

    /** `handleSubmit` as written. The replies of the existence check and of
        the write are inputs; `calls` lists, in order, the calls the procedure
        made. A successful save resets the form, and no confirmation is left
        showing (see `ConfirmCreated`). */
    method HandleSubmit(existsReply: Reply<bool>, writeReply: Reply<()>) returns (calls: seq<ServiceCall>)
      requires Valid()
      modifies this`formData, this`skills, this`error, this`success, this`isLoading
      ensures Valid()
      ensures calls == SubmitCalls(old(formData), old(skills), existsReply)
      ensures error == SubmitError(old(formData), existsReply, writeReply)
      ensures success == None
      ensures Saved(old(formData), existsReply, writeReply) ==> formData == INITIAL_FORM_STATE && skills == []
      ensures !Saved(old(formData), existsReply, writeReply) ==> formData == old(formData) && skills == old(skills)
      ensures isLoading == (RequiredMissing(old(formData)) && old(isLoading))
    {
      var saved;
      calls, saved := Submit(existsReply, writeReply);
      if saved {
        ConfirmCreated(formData.name);
      }
    }

    /** `handleSubmit` with the success tail as evidently intended (see
        `ConfirmCreatedIntended`): the same calls, errors and resets as
        `HandleSubmit`, and after a successful save the confirmation names the
        developer. */
    method HandleSubmitIntended(existsReply: Reply<bool>, writeReply: Reply<()>) returns (calls: seq<ServiceCall>)
      requires Valid()
      modifies this`formData, this`skills, this`error, this`success, this`isLoading
      ensures Valid()
      ensures calls == SubmitCalls(old(formData), old(skills), existsReply)
      ensures error == SubmitError(old(formData), existsReply, writeReply)
      ensures success == if Saved(old(formData), existsReply, writeReply) then Some(SuccessMessage(old(formData.name))) else None
      ensures Saved(old(formData), existsReply, writeReply) ==> formData == INITIAL_FORM_STATE && skills == []
      ensures !Saved(old(formData), existsReply, writeReply) ==> formData == old(formData) && skills == old(skills)
      ensures isLoading == (RequiredMissing(old(formData)) && old(isLoading))
    {
      var saved;
      calls, saved := Submit(existsReply, writeReply);
      if saved {
        ConfirmCreatedIntended(formData.name);
      }
    }

    /** `handleSubmit` up to its success tail: clear the messages, check the
        required fields, then check and write under the normalised email, and
        end loading. The form itself is not touched; `saved` tells whether the
        record was written. */
    method Submit(existsReply: Reply<bool>, writeReply: Reply<()>) returns (calls: seq<ServiceCall>, saved: bool)
      requires Valid()
      modifies this`error, this`success, this`isLoading
      ensures Valid() && success == None
      ensures saved == Saved(old(formData), existsReply, writeReply)
      ensures calls == SubmitCalls(old(formData), old(skills), existsReply)
      ensures error == SubmitError(old(formData), existsReply, writeReply)
      ensures isLoading == (RequiredMissing(old(formData)) && old(isLoading))
    {
      error := None;
      success := None;

      if formData.name == "" || formData.email == "" {
        error := Some(REQUIRED_FIELDS_MESSAGE);
        calls := [];
        saved := false;
        return;
      }

      isLoading := true;
      var normalizedEmail := Normalize(formData.email);
      calls := CheckAndWrite(normalizedEmail, existsReply, writeReply);
      saved := existsReply == Ok(false) && writeReply.Ok?;
      // The `finally` block.
      isLoading := false;
    }

    /** The `try` block of `handleSubmit` up to its success tail, entered once
        the required fields are present, with the normalised email as `key`:
        check the key, then write the form's record. */
    method CheckAndWrite(key: string, existsReply: Reply<bool>, writeReply: Reply<()>) returns (calls: seq<ServiceCall>)
      modifies this`error, this`isLoading
      ensures existsReply != Ok(false) ==>
        && calls == [ExistsCall(key)]
        && error == Some(if existsReply == Ok(true) then DUPLICATE_EMAIL_MESSAGE else CREATE_FAILED_MESSAGE)
      ensures existsReply == Ok(false) ==>
        && calls == [ExistsCall(key), WriteCall(DeveloperRecord(formData, key, skills))]
        && error == (if writeReply.Ok? then old(error) else Some(CREATE_FAILED_MESSAGE))
      ensures existsReply == Ok(true) ==> !isLoading
      ensures existsReply != Ok(true) ==> isLoading == old(isLoading)
    {
      if existsReply == Ok(false) {
        var write := Write(DeveloperRecord(formData, key, skills), writeReply);
        calls := [ExistsCall(key), write];
      } else {
        Refuse(existsReply);
        calls := [ExistsCall(key)];
      }
    }

    /** The `try` block when the email is already registered, and the `catch`
        block when the existence check fails: no write, and the reason shown. */
    method Refuse(existsReply: Reply<bool>)
      requires existsReply != Ok(false)
      modifies this`error, this`isLoading
      ensures error == Some(if existsReply == Ok(true) then DUPLICATE_EMAIL_MESSAGE else CREATE_FAILED_MESSAGE)
      ensures existsReply == Ok(true) ==> !isLoading
      ensures existsReply != Ok(true) ==> isLoading == old(isLoading)
    {
      if existsReply == Ok(true) {
        error := Some(DUPLICATE_EMAIL_MESSAGE);
        isLoading := false;
      } else {
        error := Some(CREATE_FAILED_MESSAGE);
      }
    }

    /** The write step of the `try` block: `record` is written; a failed write
        is caught and shown, a successful one leaves the state to the success
        tail. */
    method Write(record: DeveloperData, writeReply: Reply<()>) returns (call: ServiceCall)
      modifies this`error
      ensures call == WriteCall(record)
      ensures error == if writeReply.Failed? then Some(CREATE_FAILED_MESSAGE) else old(error)
    {
      call := WriteCall(record);
      if writeReply.Failed? {
        error := Some(CREATE_FAILED_MESSAGE);
      }
    }
  }

  /** The success tail as written loses its confirmation: after it, no message
      is shown, where the registration test expects one naming the developer. */
  method ConfirmationLost(name: string) returns (shown: Option<string>)
    ensures shown == None
    ensures shown != Some(SuccessMessage(name))
  {
    var form := new DeveloperForm();
    form.ConfirmCreated(name);
    shown := form.success;
  }

  /** Lower-casing an upper-case variant of the registration test's email, four
      characters or five at a time. */
  lemma LowerUpperCaseEmail()
    ensures Lower("JOHN.DOE@TEST.COM") == "john.doe@test.com"
  {
    LowerAppend("JOHN", ".DOE@TEST.COM");
    LowerAppend(".DOE", "@TEST.COM");
    LowerAppend("@TEST", ".COM");
    assert Lower("JOHN") == "john";
    assert Lower(".DOE") == ".doe";
    assert Lower("@TEST") == "@test";
    assert Lower(".COM") == ".com";
  }

  /** An upper-case variant of the registration test's email is checked and stored
      under its lower-case form. */
  lemma UpperCaseKey(email: string)
    requires email == "JOHN.DOE@TEST.COM"
    ensures Normalize(email) == "john.doe@test.com"
  {
    TrimOfTrimmed(email);
    LowerUpperCaseEmail();
  }

  /** Filling in a fresh form: a name, an email, a role, and one skill from the
      catalog at proficiency 4. */
  method FillRegistration(form: DeveloperForm, name: string, email: string, role: string, skill: string)
    requires form.Valid() && form.formData == INITIAL_FORM_STATE && form.skills == [] && form.success == None
    requires skill != ""
    modifies form
    ensures form.Valid() && form.success == None
    ensures form.formData == FormData(name, "", email, "", role, "", true)
    ensures form.skills == [Skill(skill, 4)]
  {
    form.LoadSkillCatalog([skill]);
    form.HandleInputChange(NameField, name);
    form.HandleInputChange(EmailField, email);
    form.HandleInputChange(RoleField, role);
    form.SelectProficiency(4);
    form.HandleAddSkill();
  }

  /** Registering a developer with a name, an email, a role and one skill of
      proficiency 4, with the handler as written: the normalised email is
      checked, the record written is the form with that email and the skill,
      and the form is reset; but no confirmation is left showing, where the
      registration test expects one naming the developer. */
  method RegistrationScenario(name: string, email: string, role: string, skill: string)
    returns (calls: seq<ServiceCall>, after: FormData, shown: Option<string>)
    requires name != "" && email != "" && skill != ""
    ensures calls == [
      ExistsCall(Normalize(email)),
      WriteCall(DeveloperData(name, "", Normalize(email), "", role, "", true, [Skill(skill, 4)]))]
    ensures after == INITIAL_FORM_STATE
    ensures shown == None && shown != Some(SuccessMessage(name))
  {
    var form := new DeveloperForm();
    FillRegistration(form, name, email, role, skill);
    assert NewDeveloper(form.formData, form.skills) ==
      DeveloperData(name, "", Normalize(email), "", role, "", true, [Skill(skill, 4)]);
    calls := form.HandleSubmit(Ok(false), Ok(()));
    after := form.formData;
    shown := form.success;
  }

  /** The same registration with the handler as evidently intended: the same
      calls and reset, and the confirmation names the developer. */
  method RegistrationScenarioIntended(name: string, email: string, role: string, skill: string)
    returns (calls: seq<ServiceCall>, after: FormData, shown: Option<string>)
    requires name != "" && email != "" && skill != ""
    ensures calls == [
      ExistsCall(Normalize(email)),
      WriteCall(DeveloperData(name, "", Normalize(email), "", role, "", true, [Skill(skill, 4)]))]
    ensures after == INITIAL_FORM_STATE
    ensures shown == Some(SuccessMessage(name))
  {
    var form := new DeveloperForm();
    FillRegistration(form, name, email, role, skill);
    assert NewDeveloper(form.formData, form.skills) ==
      DeveloperData(name, "", Normalize(email), "", role, "", true, [Skill(skill, 4)]);
    calls := form.HandleSubmitIntended(Ok(false), Ok(()));
    after := form.formData;
    shown := form.success;
  }
}
