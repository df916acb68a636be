# DevSkillTracker core in Dafny

DevSkillTracker is an administrators-only web application for keeping a directory
of developers and their skills. This project models its core in Dafny:

- **`AddDeveloperForm`** (`add_developer_form.dfy`): the registration form.
  - It holds the form fields and a skill list. The list has distinct names and proficiencies 1 to 5.
  - On submit it requires a name and an email.
  - It then asks whether a developer with the normalised email already exists.
  - If none does, it writes the record under that email and resets the form.
- **`FirebaseService`** (`firebase_service.dfy`): the data-access layer over the hosted document database.
  - It holds the `devs` collection: records keyed by normalised email, written by upsert, checked by key, listed with their key as `id`.
  - It also reads the skills catalog, falling back to a built-in list.
- **`App`** (`app.dfy`): the identity gate at the application root.
  - It admits a signed-in user only when their lower-cased email is on the lower-cased allow-list.
  - Anyone else is signed out and shown the refusal.
  - It renders a spinner, the dashboard or the login screen.
- **`DeveloperList`** (`developer_list.dfy`): the directory view.
  - It fetches all developers once.
  - It then shows the loading state, the fetch error, an empty notice, or one table row per developer.
- **`Text`** (`text.dfy`) and **`Types`** (`types.ts` records): ASCII models of `trim`, `toLowerCase` and `join`, and the stored records.

Each part keeps the source's form:
- Components that update state in place are classes. Their methods are proved against specification functions.
- The pure helpers are functions with lemmas.

Replies from the backend are inputs of the model. A `Reply<T>` is either `Ok(value)` or `Failed` (the promise rejected).

Two points of the code are modelled as written:
- **Required-field check:** the check at `components/AddDeveloperForm.tsx:70` uses the raw `formData.email`, not the trimmed one. So an email of spaces passes the check, and both the existence check and the write are addressed to the empty key (`AddDeveloperForm.BlankEmailPassesValidation`, `Text.NormalizeBlank`). What the backend replies to that is an input of the model.
- **Success message:** the registration test (`src/tests/AddDeveloperForm.test.tsx:124`) expects a confirmation message after a successful write. As written, the code clears it at once (see Findings).
  - `AddDeveloperForm.DeveloperForm.HandleSubmit` models the handler as written: it ends with `ConfirmCreated`, and no confirmation is left showing. `AddDeveloperForm.RegistrationScenario` shows that the registration test's submission then ends without its expected message.
  - `AddDeveloperForm.DeveloperForm.HandleSubmitIntended` and `AddDeveloperForm.RegistrationScenarioIntended` are the corrected twins: they end with `ConfirmCreatedIntended`.
  - Both handlers share everything before the success tail (`AddDeveloperForm.DeveloperForm.Submit`).

## Model

| member | source | states |
|---|---|---|
| Types.WithId | src/services/firebaseService.ts:55 | a listed developer carries the document key as `id` and exactly the stored fields |
| Types.SkillNames | src/components/DeveloperList.tsx:70 | one name per skill, in list order |
| Text.LowerChar | src/services/firebaseService.ts:75 | lower-casing one character leaves no upper-case letter, keeps spaces, and changes only upper-case letters |
| Text.LowerCharCaseVariant | src/App.tsx:16 | two characters lower-case to the same character exactly when they are equal or one is the upper-case ASCII form of the other, so comparing lower-cased emails is comparing them up to letter case |
| Text.TrimStart | src/services/firebaseService.ts:75 | the result is no longer than the input and does not start with a space |
| Text.TrimEnd | src/services/firebaseService.ts:75 | the result is no longer than the input and does not end with a space; when the input does not start with a space, the result has no space at either end |
| Text.TrimStartSuffix | src/services/firebaseService.ts:75 | what removing leading spaces drops is all spaces, and what it keeps is the rest of the input unchanged |
| Text.TrimEndPrefix | src/services/firebaseService.ts:75 | what removing trailing spaces drops is all spaces, and what it keeps is the start of the input unchanged |
| Text.Trim | src/services/firebaseService.ts:75 | the result is no longer than the input and has no space at either end |
| Text.TrimBlank | src/services/firebaseService.ts:75 | trimming leaves the empty string exactly when the input is all spaces |
| Text.Lower | src/services/firebaseService.ts:75 | same length, no upper-case letter, same positions of spaces, other characters kept |
| Text.Normalize | src/services/firebaseService.ts:75 | the key is no longer than the email, is trimmed and has no upper-case letter |
| Text.Join | src/components/DeveloperList.tsx:70 | joining no parts gives "", joining one part gives that part |
| Text.NormalizeIdempotent | src/services/firebaseService.ts:75-76 | normalising a normalised email changes nothing, so the form's normalisation and the store's agree |
| Text.NormalizeOfNormal | src/services/firebaseService.ts:75 | a string already trimmed and without upper-case letters is its own normalised form |
| Text.TrimStartLower | src/services/firebaseService.ts:75 | removing leading spaces commutes with lower-casing |
| Text.TrimEndLower | src/services/firebaseService.ts:75 | removing trailing spaces commutes with lower-casing |
| Text.TrimLowerCommute | src/services/firebaseService.ts:75 | `trim` and `toLowerCase` commute |
| Text.NormalizeIgnoresCase | src/services/firebaseService.ts:75 | emails equal up to letter case have the same key |
| Text.TrimStartSkipsSpaces | src/services/firebaseService.ts:75 | leading spaces do not change what is left after removing leading spaces |
| Text.TrimEndSkipsSpaces | src/services/firebaseService.ts:75 | trailing spaces do not change what is left after removing trailing spaces |
| Text.TrimStartAppend | src/services/firebaseService.ts:75 | removing leading spaces from a string that has a non-space character leaves any suffix untouched |
| Text.TrimIgnoresLeading | src/services/firebaseService.ts:75 | leading spaces do not change the trimmed form |
| Text.TrimIgnoresTrailing | src/services/firebaseService.ts:75 | trailing spaces do not change the trimmed form |
| Text.TrimIgnoresPadding | src/services/firebaseService.ts:75 | spaces around an email do not change its trimmed form |
| Text.NormalizeVariant | src/services/firebaseService.ts:74-76 | every case-and-padding variant of an email has the same key |
| Text.NormalizeBlank | components/AddDeveloperForm.tsx:76 | an all-space email normalises to the empty key |
| Text.JoinAppend | src/components/DeveloperList.tsx:70 | joining two non-empty lists puts one separator between the two joins, in order |
| FirebaseService.Upsert | src/services/firebaseService.ts:81-85 | `setDoc` under the normalised email: that key holds the new record, one key at most is added, and every other record is unchanged |
| FirebaseService.UpsertKeepsKeyed | src/services/firebaseService.ts:81-85 | after any write, every record is still stored under the normalised form of its own email, so there is at most one record per normalised email |
| FirebaseService.FoundAfterAdd | src/services/firebaseService.ts:74-85 | after a write, the existence check succeeds for the email and for every case-and-padding variant of it |
| FirebaseService.UpsertTwice | src/services/firebaseService.ts:81-85 | writing the same record twice is the same as writing it once |
| FirebaseService.UpsertCount | src/services/firebaseService.ts:81-85 | a write of a present key keeps the record count, a write of a new key adds one record |
| FirebaseService.DeveloperStore.DeveloperExists | src/services/firebaseService.ts:74-79 | true exactly when a record sits under the normalised email |
| FirebaseService.Exists | src/services/firebaseService.ts:74-79 | the lookup under the normalised email; an email already trimmed and lower-case is looked up as itself |
| FirebaseService.DeveloperStore.AddDeveloper | src/services/firebaseService.ts:81-85 | the collection becomes the upsert of the record, the record is then found, and records stay keyed by their own normalised email |
| FirebaseService.DeveloperStore.GetDevelopers | src/services/firebaseService.ts:53-56 | one developer per stored record, with the record's key as `id` and its stored fields, no key twice, every key present |
| FirebaseService.ListingStep | src/services/firebaseService.ts:53-56 | adding the record of one not-yet-listed key keeps the partial listing exact: every listed key once, with its stored fields, and every key outside the remaining set listed |
| FirebaseService.GetSkillsCatalog | src/services/firebaseService.ts:58-72 | the stored list if the record exists (empty when the field is missing), the built-in list if the record is absent, and empty if the read fails |
| FirebaseService.DefaultCatalogShape | src/services/firebaseService.ts:67 | the built-in catalog has 13 distinct names, starting with "JavaScript" |
| AddDeveloperForm.WithText | components/AddDeveloperForm.tsx:40-46 | the named text input takes the typed value, and every other input and the `active` flag are unchanged |
| AddDeveloperForm.AddSkill | components/AddDeveloperForm.tsx:48-52 | the list grows by exactly the chosen skill and proficiency iff a skill is chosen and no entry has its name; afterwards the skill is on the list |
| AddDeveloperForm.RemoveSkill | components/AddDeveloperForm.tsx:54-56 | the list does not grow and no entry of the removed name remains |
| AddDeveloperForm.RemoveSkillMembers | components/AddDeveloperForm.tsx:55 | an entry remains iff it was on the list and has another name |
| AddDeveloperForm.AddSkillKeepsWellFormed | components/AddDeveloperForm.tsx:48-52 | adding keeps names distinct and non-empty and proficiencies in 1-5 |
| AddDeveloperForm.RemoveSkillAppend | components/AddDeveloperForm.tsx:55 | removal acts on each part of a list separately, so the order of what remains is kept |
| AddDeveloperForm.RemoveAbsentSkill | components/AddDeveloperForm.tsx:55 | removing a name no entry has leaves the list unchanged |
| AddDeveloperForm.ConsKeepsWellFormed | components/AddDeveloperForm.tsx:55 | a valid entry whose name the rest lacks can be put in front of a well-formed list |
| AddDeveloperForm.RemoveSkillAddsNoName | components/AddDeveloperForm.tsx:55 | removal introduces no name that was not on the list |
| AddDeveloperForm.RemoveSkillKeepsWellFormed | components/AddDeveloperForm.tsx:54-56 | removal keeps the skill-list invariant |
| AddDeveloperForm.RemoveUndoesAdd | components/AddDeveloperForm.tsx:48-56 | removing a skill just added restores the earlier list |
| AddDeveloperForm.WrittenRecordIsFound | components/AddDeveloperForm.tsx:76-87 | the key the form checks is the key the store writes under, so after a write the check finds the form's email |
| AddDeveloperForm.NewDeveloper | components/AddDeveloperForm.tsx:86 | the written record is the form's fields with the email normalised (trimmed, no upper-case letter) and the current skill list |
| AddDeveloperForm.DeveloperRecord | components/AddDeveloperForm.tsx:86 | the form's fields with the given key as email and the given skill list |
| AddDeveloperForm.DeveloperForm.constructor | components/AddDeveloperForm.tsx:17-27 | a new form holds `initialFormState`, no skills, an empty catalog, no selected skill, proficiency 3, not loading and no messages |
| AddDeveloperForm.BlankEmailPassesValidation | components/AddDeveloperForm.tsx:70-86 | an all-space email passes the required-field check and is written with the empty email |
| AddDeveloperForm.DeveloperForm.LoadSkillCatalog | components/AddDeveloperForm.tsx:29-38 | the catalog is kept, its first entry is pre-selected when it has one, and nothing else changes |
| AddDeveloperForm.DeveloperForm.HandleInputChange | components/AddDeveloperForm.tsx:40-46 | a text input updates only its own field |
| AddDeveloperForm.DeveloperForm.HandleActiveChange | components/AddDeveloperForm.tsx:40-46 | the checkbox updates `active` only |
| AddDeveloperForm.DeveloperForm.SelectSkill | components/AddDeveloperForm.tsx:126 | the picker sets the chosen skill |
| AddDeveloperForm.DeveloperForm.SelectProficiency | components/AddDeveloperForm.tsx:132-133 | the picker sets a proficiency among 1-5 |
| AddDeveloperForm.DeveloperForm.HandleAddSkill | components/AddDeveloperForm.tsx:48-52 | the list becomes `AddSkill` of the old list and keeps the invariant |
| AddDeveloperForm.DeveloperForm.HandleRemoveSkill | components/AddDeveloperForm.tsx:54-56 | the list becomes `RemoveSkill` of the old list and keeps the invariant |
| AddDeveloperForm.DeveloperForm.ResetForm | components/AddDeveloperForm.tsx:58-63 | fields back to the initial state, no skills, no messages |
| AddDeveloperForm.DeveloperForm.ConfirmCreated | components/AddDeveloperForm.tsx:89-90 | as written: the form is reset and no confirmation remains |
| AddDeveloperForm.ConfirmationLost | components/AddDeveloperForm.tsx:89-90 | as written, no message is shown after the success tail, where the confirmation naming the developer is expected |
| AddDeveloperForm.DeveloperForm.ConfirmCreatedIntended | components/AddDeveloperForm.tsx:89-90 | corrected: the form is reset and the confirmation naming the developer is shown |
| AddDeveloperForm.DeveloperForm.HandleSubmit | components/AddDeveloperForm.tsx:65-97 | as written: missing name or email gives no call, the required-fields error and nothing else changed. Otherwise the normalised email is checked first; a duplicate or a failed check gives its error and keeps the form; when the email is not yet registered exactly one write of the form's record follows; a failed write keeps the form with the failure error, a successful one resets the form; loading ends; and no confirmation is ever left showing |
| AddDeveloperForm.DeveloperForm.HandleSubmitIntended | components/AddDeveloperForm.tsx:65-97 | corrected: the same calls, errors and resets as the handler as written, and after a successful write the confirmation naming the developer is shown |
| AddDeveloperForm.DeveloperForm.Submit | components/AddDeveloperForm.tsx:65-97 | the handler up to its success tail: messages cleared, the required-field check, then the check and the write under the normalised email, loading ended; the record counts as saved exactly when both fields are present, the check says "not found" and the write succeeds; the form is untouched |
| AddDeveloperForm.DeveloperForm.CheckAndWrite | components/AddDeveloperForm.tsx:78-92 | the `try` block up to its success tail, given the normalised email: the check of that email comes first; a duplicate or a failed check stops with its error; otherwise exactly one write of the form's record under that email follows, and only a failed write sets the failure error; loading ends on a duplicate and is otherwise left as it was |
| AddDeveloperForm.DeveloperForm.Refuse | components/AddDeveloperForm.tsx:80-92 | a duplicate shows the duplicate error and ends loading; a failed check shows the failure error |
| AddDeveloperForm.DeveloperForm.Write | components/AddDeveloperForm.tsx:86-92 | the record is written; a failed write shows the failure error, a successful one leaves the error as it was |
| AddDeveloperForm.LowerUpperCaseEmail | components/AddDeveloperForm.tsx:76 | "JOHN.DOE@TEST.COM", an upper-case variant of the registration test's email, lower-cases to "john.doe@test.com" |
| AddDeveloperForm.UpperCaseKey | components/AddDeveloperForm.tsx:76 | "JOHN.DOE@TEST.COM", an upper-case variant of the registration test's email, is checked and stored as "john.doe@test.com" |
| AddDeveloperForm.FillRegistration | src/tests/AddDeveloperForm.test.tsx:96-104 | filling a fresh form gives the typed fields and the one chosen skill at proficiency 4 |
| AddDeveloperForm.RegistrationScenario | src/tests/AddDeveloperForm.test.tsx:91-127 | as written: a complete registration checks the normalised email, writes exactly the expected record and resets the form, but shows no message, where the test expects the confirmation naming the developer |
| AddDeveloperForm.RegistrationScenarioIntended | src/tests/AddDeveloperForm.test.tsx:91-127 | corrected: the same calls and reset, and the confirmation naming the developer is shown, as the test expects |
| App.AllowList | src/constants.ts:5-10 | the allow-list is the configured emails, each lower-cased, in order |
| App.LoweredEmail | src/App.tsx:16 | a missing email becomes the empty string; a present one keeps its length and has no upper-case letter left |
| App.IsAdmin | src/App.tsx:16 | a user with an email is admitted iff its lower-cased form is on the list; a user without one iff the empty string is on the list |
| App.IdentityGate.constructor | src/App.tsx:9-11 | the gate starts with no user, no error and loading, holding the lower-cased allow-list |
| App.AdmissionIgnoresCase | src/App.tsx:16 | a user is admitted iff some configured email equals theirs up to letter case |
| App.NoEmailNotAdmitted | src/App.tsx:16 | a user without an email is never admitted by the configured list |
| App.IdentityGate.OnAuthStateChanged | src/App.tsx:14-29 | an admin becomes the user and the error clears; anyone else is signed out and, once the sign-out settles, refused with the message; no user clears the user and keeps any error; loading ends; only admins are ever the user |
| App.IdentityGate.Render | src/App.tsx:34-46 | spinner while loading, else the dashboard iff there is a user, else the login screen with the current error |
| App.IdentityGate.DashboardOnlyForAdmins | src/App.tsx:16-17 | the dashboard is shown only to a user on the allow-list |
| App.RejectionScenario | e2e/app.spec.ts:37-43 | a signed-in non-administrator is signed out once and left on the login screen with the refusal |
| DeveloperList.ActiveLabel | src/components/DeveloperList.tsx:66 | "Yes" iff active, "No" iff not |
| DeveloperList.SkillsCell | src/components/DeveloperList.tsx:70 | no skills give an empty cell, one skill gives its name |
| DeveloperList.SkillsCellAppend | src/components/DeveloperList.tsx:70 | a skill appended to the list shows last, after ", " |
| DeveloperList.Rows | src/components/DeveloperList.tsx:58-73 | one row per developer in the fetched order |
| DeveloperList.RowOf | src/components/DeveloperList.tsx:59-71 | a row is keyed by the developer's `id`, shows the stored name, email, role and project, "Yes" exactly when active, and the skills cell |
| DeveloperList.DeveloperListView.constructor | src/components/DeveloperList.tsx:7-9 | the view starts loading, with no developers and no error |
| DeveloperList.DeveloperListView.FetchDevelopers | src/components/DeveloperList.tsx:11-24 | a successful fetch replaces the list, a failed one sets the fetch error; loading ends either way |
| DeveloperList.DeveloperListView.Render | src/components/DeveloperList.tsx:26-79 | loading, then error, then the empty notice, then the table: one row per developer in fetched order, each carrying the developer's key, name, email, role, project, "Yes"/"No" badge and skills cell |
| DeveloperList.FailedFetchScenario | src/components/DeveloperList.tsx:16-17 | a failed fetch shows the fetch error, not an empty directory |

## Left out

- Firebase initialisation and the sign-in, sign-out and listener wrappers (`src/services/firebaseService.ts:20-46`) are left out. They are calls into the hosted services. The model takes their outcomes as inputs: the `Reply` values, and `signOutSucceeds` for the awaited sign-out.
- The gap between the existence check and the write is left out, because it involves concurrency. Two concurrent registrations of the same email can both pass the check. The later write then overwrites the earlier one: `Upsert` shows the overwrite, but the interleaving is not modelled.
- The listener's unsubscribe on unmount and React's rendering, markup and styling are left out. `Render` models only which screen is chosen and which data it shows.
- Console logging of errors and warnings is left out.
- App.IdentityGate.OnAuthStateChanged: each auth callback is modelled as one atomic step. In the source, the awaited `signOutUser()` (`src/App.tsx:21`) can interleave with the next auth event, so an admin event that arrives during that await would be overwritten by the refusal. That interleaving is not modelled.
- FirebaseService.Upsert: the `devs` map accepts any string as a key, including `""` (the blank-email path) and keys containing "/". The hosted database's own limits on document ids are not modelled, because its client library is not part of this model.
- The dashboard, the settings view and the login screen component are context, not core.
- `Text.Trim`, `Text.Lower`: modelled on ASCII only. JavaScript's `trim` also strips Unicode space characters, and `toLowerCase` also maps non-ASCII letters.
- FirebaseService.DeveloperStore.GetDevelopers: the database's listing order is not modelled. The proof holds for any order, which the loop's arbitrary choice of the next key stands for. A failed listing is modelled where it is observed, as the `Failed` reply of `DeveloperList.DeveloperListView.FetchDevelopers`.
- Reading and writing the database are modelled on a map value. Transport failures are `Failed` replies handed to the form, not states of the store.
- AddDeveloperForm.DeveloperForm.HandleSubmit: the `isLoading` flag that disables the submit button is modelled. A second submit while one is pending is not, because that needs concurrency.
- App.IdentityGate.OnAuthStateChanged: when the awaited sign-out rejects, the rest of the callback does not run and the loading indicator may stay. The model states exactly that and nothing about the unhandled rejection itself.

## Findings

| source | as written | input that shows it | evidently intended | confidence | as-written member | corrected member |
|---|---|---|---|---|---|---|
| components/AddDeveloperForm.tsx:89-90 | the success message is set and then `resetForm()` sets it back to null in the same handler, so after a successful save no confirmation is shown | any valid submission whose check replies "not found" and whose write succeeds, e.g. the registration of "John Doe" in `src/tests/AddDeveloperForm.test.tsx:91-127`, which expects `Developer "John Doe" created successfully.` | reset the form first, then show `Developer "<name>" created successfully.` | high, from reading the code; not executed | AddDeveloperForm.RegistrationScenario | AddDeveloperForm.DeveloperForm.HandleSubmitIntended |
