# Verified model of the parliament portal's front-end logic

The portal is a React front end over a Supabase backend. This project models its
client-side logic in Dafny:

- the public list pages and their case-insensitive search boxes (tenders,
  enterprises, lawyers, legal-school topics, laws);
- the leadership page's avatar initials;
- the role hook and the admin panel's tab gating;
- the role manager, the feedback inbox and the tender application form;
- the response viewer and the question editor, including the two-write
  reordering of questions;
- the dialog editors for lawyers, legal-school topics and leadership members.

Each source file becomes one module. State that a component keeps in `useState`
becomes a `class` whose methods update its fields. Pure computations (filters,
normalisers, labels, the initials expression) become functions, and lemmas state
what they promise.

Every call to the backend is a parameter. A fetched list is a sequence. A write
is answered by an `Outcome` (`Ok` or `Err`) that the caller chooses. The
backend's `order_index` column is a `map` from question id to integer.

Shared modules:

- `Base`: nullable values, and the `s || null` / `o || ''` conversions with their
  round trips;
- `Lists`: `filter`, order-preserving subsequences, removal of every copy of a
  value;
- `JsText`: the JavaScript string built-ins the code relies on (`trim`,
  `toLowerCase`, `includes`, `split`, `join`, `parseInt`);
- `Search`: field matching common to the search pages;
- `TenderSchema`: questions and answers.

Where the code departs from the behaviour one would expect of the portal, the model follows the code:

- A required checkbox question answered with an empty list is not missing: an
  empty array is truthy (`TenderForm.EmptyListIsNotMissing`).
- The reorder of two questions is two independent writes. If the second write
  fails, both questions keep the same `order_index` (`AdminTenderQuestions.FailedMoveEffect`).
- An application is never submitted without a signed-in user
  (`TenderForm.FormSession.Submit`).

## Model

| member | source | states |
|---|---|---|
| Base.NullIfEmpty | src/components/admin/AdminLawyers.tsx:68-69 | saving a text field gives null exactly for the empty string, and keeps any other string as it is |
| Base.EmptyIfNull | src/components/admin/AdminLawyers.tsx:178-179 | opening a nullable field gives `''` exactly for null or a stored empty string, and a stored value as it is |
| Base.FormFieldRoundTrip | src/components/admin/AdminLawyers.tsx:66-70 | a form field saved (empty to null) and reopened (null to empty) is unchanged |
| Base.StoredFieldRoundTrip | src/components/admin/AdminFeedback.tsx:157 | a stored value reopened and saved again is unchanged, except that a stored `''` comes back as null |
| Lists.Filter | src/pages/Tenders.tsx:54-57 | the filter keeps exactly the elements that satisfy the test, and never grows the list |
| Lists.FilterIsSubsequence | src/pages/Tenders.tsx:54-57 | a filtered list is an order-preserving subsequence of the original |
| Lists.FilterCounts | src/pages/Tenders.tsx:54-57 | each kept value keeps its multiplicity; each dropped value has none |
| Lists.FilterKeepsAll | src/components/admin/AdminTenderQuestions.tsx:116 | when every element passes, the filter returns the list unchanged |
| Lists.FindIndex | src/components/admin/AdminTenderQuestions.tsx:175 | `findIndex` gives the position of the first passing element, and -1 exactly when none passes |
| Lists.RemoveAll | src/components/TenderForm.tsx:228 | `filter(r => r !== option)` leaves no copy of the option and keeps every other element |
| Lists.RemoveAllKeepsOthers | src/components/TenderForm.tsx:228 | removal keeps the other elements in order and with their multiplicities |
| Lists.RemoveAllAppended | src/components/TenderForm.tsx:224-228 | removing a value just appended to a list without it restores the list |
| JsText.TrimStart | src/components/admin/AdminTenderQuestions.tsx:116 | the result is a suffix, the cut part is white space, and the result does not start with white space |
| JsText.TrimEnd | src/components/admin/AdminTenderQuestions.tsx:116 | the result is a prefix, the cut part is white space, and the result does not end with white space |
| JsText.Trim | src/components/admin/AdminTenderQuestions.tsx:116 | `trim()` is `trimEnd` after `trimStart`; what it gives is stated by `TrimEmptyIffBlank` |
| JsText.TrimEmptyIffBlank | src/components/admin/AdminTenderQuestions.tsx:116 | `trim()` gives `''` exactly when the string is all white space |
| JsText.Lower | src/pages/Tenders.tsx:55 | `toLowerCase` keeps the length and lowers each character by the per-character mapping `LowerChar` |
| JsText.LowerIdempotent | src/pages/Tenders.tsx:55 | lowering twice is lowering once |
| JsText.Includes | src/pages/Tenders.tsx:55 | `includes` tries each start position from the left; `IncludesIffOccurs` states that it holds exactly when the term occurs |
| JsText.IncludesIffOccurs | src/pages/Tenders.tsx:55 | `includes` holds exactly when the term occurs at some position |
| JsText.IncludesEmpty | src/pages/Tenders.tsx:55 | every string includes `''` |
| JsText.Split | src/pages/Leadership.tsx:93 | `split(' ')` gives at least one piece, and no piece contains the separator |
| JsText.Join | src/pages/Leadership.tsx:93 | `join(sep)` puts the separator between consecutive pieces; `JoinSplit` and `SplitJoin` state that it undoes and is undone by `split` |
| JsText.JoinSplit | src/pages/Leadership.tsx:93 | joining the pieces of a split with the separator gives the string back |
| JsText.SplitJoin | src/pages/Leadership.tsx:93 | splitting a join of separator-free pieces gives the pieces back |
| JsText.SplitOfPiece | src/pages/Leadership.tsx:93 | a string without the separator splits into itself |
| JsText.SplitBeforeSeparator | src/pages/Leadership.tsx:93 | splitting `p + sep + s` gives `p` followed by the pieces of `s` |
| JsText.DigitPrefix | src/components/admin/AdminLeadership.tsx:229 | `parseInt` reads the longest run of leading digits |
| JsText.Negate | src/components/admin/AdminLeadership.tsx:229 | a leading `-` negates the parsed value, and NaN stays NaN |
| JsText.ParseInt | src/components/admin/AdminLeadership.tsx:229 | `parseInt` in base ten: white space skipped, an optional sign, the leading digits, NaN when there are none; stated by `ParseIntOfUnsigned`, `ParseIntOfNegative` and `ParseIntRoundTrip` |
| JsText.NatToString | src/components/admin/AdminLeadership.tsx:229 | the decimal form `String(n)` of a natural number is a non-empty string of digits |
| JsText.IntToString | src/components/admin/AdminLeadership.tsx:228-229 | `String(n)` for an integer: a `-` before the digits of a negative number; `ParseIntRoundTrip` states that `parseInt` reads it back |
| JsText.DigitsValueOfNatToString | src/components/admin/AdminLeadership.tsx:229 | reading back the decimal digits of a number gives the number |
| JsText.ParseDigitsOfDigits | src/components/admin/AdminLeadership.tsx:229 | a non-empty string of digits parses to its value |
| JsText.ParseIntOfUnsigned | src/components/admin/AdminLeadership.tsx:229 | a string that starts with a digit parses as its digit prefix |
| JsText.ParseIntOfNegative | src/components/admin/AdminLeadership.tsx:229 | `-` before digits parses to the negated value |
| JsText.TrimStartKeeps | src/components/admin/AdminLeadership.tsx:229 | a string not starting with white space is not trimmed |
| JsText.ParseIntRoundTrip | src/components/admin/AdminLeadership.tsx:229 | `parseInt` of the decimal form of any integer gives that integer (for unbounded integers; see Left out) |
| Search.EmptyTermMatches | src/pages/Tenders.tsx:55 | every field matches the empty search term |
| Search.EmptyTermMatchesAll | src/pages/Tenders.tsx:54-57 | the empty term matches all fields at once |
| Search.MatchIgnoresCase | src/pages/Tenders.tsx:55-56 | lower-casing the field or the term does not change whether it matches |
| Search.AbsentFieldNeverMatches | src/pages/Lawyers.tsx:53 | a null or empty optional field never matches, not even the empty term |
| Search.FieldHas | src/pages/Lawyers.tsx:51 | `field.toLowerCase().includes(term.toLowerCase())`; `EmptyTermMatches` and `MatchIgnoresCase` state its properties |
| Search.OptionalFieldHas | src/pages/Lawyers.tsx:53 | `field && field.toLowerCase().includes(…)`; `AbsentFieldNeverMatches` states the guard |
| Search.SearchResult | src/pages/Tenders.tsx:54-58 | a search result is a subsequence of the rows, and is all of them when every row matches |
| TendersPage.Filtered | src/pages/Tenders.tsx:53-59 | a tender is shown iff its title or content contains the term case-insensitively; order is kept; the empty term shows all |
| TendersPage.Matches | src/pages/Tenders.tsx:54-57 | the search test on a tender: title or content includes the lower-cased term; `Filtered` states what it selects |
| TendersPage.ApplyButtons | src/pages/Tenders.tsx:144-152 | the apply button appears on exactly the shown tenders that have a form |
| TendersPage.TendersView.constructor | src/pages/Tenders.tsx:21-26 | starts with no tenders, an empty term, no selection and no form |
| TendersPage.TendersView.Shown | src/pages/Tenders.tsx:53-59 | the list on screen holds exactly the loaded tenders that match the current term, in their order |
| TendersPage.TendersView.OpenForm | src/pages/Tenders.tsx:166-174 | the form is rendered with the selected tender, and with none when nothing is selected |
| TendersPage.TendersView.Load | src/pages/Tenders.tsx:39-41 | the loaded tenders replace the list; the rest is unchanged |
| TendersPage.TendersView.Search | src/pages/Tenders.tsx:110 | typing replaces the term only |
| TendersPage.TendersView.ApplyToTender | src/pages/Tenders.tsx:61-70 | without a user the click redirects and changes nothing; with one it selects the tender and opens its form |
| TendersPage.TendersView.CloseForm | src/pages/Tenders.tsx:169-172 | closing clears the selection and hides the form |
| EnterprisesPage.Filtered | src/pages/Enterprises.tsx:50-58 | an enterprise is shown iff name, business type, owner or (when present) registration number contains the term; order kept; empty term shows all |
| EnterprisesPage.Matches | src/pages/Enterprises.tsx:50-58 | the search test on an enterprise: name, business type, owner, or a present registration number; `Filtered` states what it selects |
| EnterprisesPage.AbsentRegistrationNeverMatches | src/pages/Enterprises.tsx:55 | a missing registration number never causes a match |
| LawyersPage.Filtered | src/pages/Lawyers.tsx:49-56 | a lawyer is shown iff name, licence number or (when present) specialization contains the term; order kept; empty term shows all |
| LawyersPage.Matches | src/pages/Lawyers.tsx:49-56 | the search test on a lawyer: name, licence number, or a present specialization; `Filtered` states what it selects |
| LawyersPage.AbsentSpecializationNeverMatches | src/pages/Lawyers.tsx:53 | a missing specialization never causes a match |
| LegalSchoolPage.Filtered | src/pages/LegalSchool.tsx:47-53 | a topic is shown iff its title or (when present) content contains the term; order kept; empty term shows all |
| LegalSchoolPage.Matches | src/pages/LegalSchool.tsx:47-53 | the search test on a topic: title, or present content; `Filtered` states what it selects |
| LegalSchoolPage.AbsentContentNeverMatches | src/pages/LegalSchool.tsx:50 | missing content never causes a match |
| LawsPage.Filtered | src/pages/Laws.tsx:46-51 | a law is shown iff its title contains the term; order kept; empty term shows all |
| LawsPage.Matches | src/pages/Laws.tsx:46-51 | the search test on a law: the title only; `Filtered` and `LinkNeverSearched` state what it selects |
| LawsPage.LinkNeverSearched | src/pages/Laws.tsx:47-49 | changing a law's link never changes whether it is shown |
| LeadershipPage.Head | src/pages/Leadership.tsx:93 | `n[0]` is undefined exactly for an empty piece, otherwise its first character |
| LeadershipPage.Initials | src/pages/Leadership.tsx:93 | `split(' ').map(n => n[0]).join('')`; `InitialsAreWordStarts`, `InitialsLength` and `InitialsOfOneWord` state what it gives |
| LeadershipPage.Heads | src/pages/Leadership.tsx:93 | the map takes the head of every piece, in order |
| LeadershipPage.InitialsAreWordStarts | src/pages/Leadership.tsx:93 | the initials are exactly the characters that start a space-separated word, in order |
| LeadershipPage.WordStartsOfPieces | src/pages/Leadership.tsx:93 | the word-start reading agrees with split, map and join on every name |
| LeadershipPage.JoinHeadsLength | src/pages/Leadership.tsx:93 | the joined heads have one character per non-empty piece |
| LeadershipPage.InitialsLength | src/pages/Leadership.tsx:93 | the initials are as long as the number of non-empty pieces; empty pieces add nothing |
| LeadershipPage.InitialsOfOneWord | src/pages/Leadership.tsx:93 | a name without spaces gives its first character, and the empty name gives `''` |
| UserRole.NoRolesNoCapability | src/hooks/use-user-role.ts:43-46 | with no roles every capability is false |
| UserRole.AdminManagesAll | src/hooks/use-user-role.ts:44-46 | an admin can manage tenders and legal content |
| UserRole.IsAdmin | src/hooks/use-user-role.ts:43-44 | `isAdmin` holds iff the roles include `admin`; `NoRolesNoCapability`, `AdminManagesAll` and `CapabilitiesMonotone` state its properties |
| UserRole.HasRole | src/hooks/use-user-role.ts:42 | `roles.includes(role)`; `SomeCapabilityIffSomeRole` and `CapabilitiesMonotone` state its consequences |
| UserRole.CanManageTenders | src/hooks/use-user-role.ts:45 | admins and licence managers; covered by the same lemmas |
| UserRole.CanManageLegal | src/hooks/use-user-role.ts:46 | admins and law managers; covered by the same lemmas |
| UserRole.SomeCapabilityIffSomeRole | src/hooks/use-user-role.ts:43-46 | some capability holds exactly when the user has at least one role |
| UserRole.CapabilitiesMonotone | src/hooks/use-user-role.ts:43-46 | adding roles never removes a capability |
| UserRole.SettledRoles | src/hooks/use-user-role.ts:12-41 | roles are non-empty only for a signed-in user whose lookup succeeded, and are then the looked-up roles |
| UserRole.FailedLookupFailsClosed | src/hooks/use-user-role.ts:26-34 | no user, a query error or a thrown call leaves no capability |
| UserRole.RoleHook.constructor | src/hooks/use-user-role.ts:9-10 | starts with no roles and loading |
| UserRole.RoleHook.Resolve | src/hooks/use-user-role.ts:12-41 | after the effect, loading is over and the roles are the settled ones |
| AdminPage.Triggers | src/pages/Admin.tsx:74-124 | statistics and feedback are always offered; the users tab iff admin |
| AdminPage.ContentShown | src/pages/Admin.tsx:128-171 | the guard around each tab content; `TriggersMatchContents` states that it agrees with the triggers |
| AdminPage.TriggersMatchContents | src/pages/Admin.tsx:74-172 | a tab has a trigger exactly when it has content |
| AdminPage.Render | src/pages/Admin.tsx:29-50 | loading shows only the loading screen; a panel opens on `DefaultTab`, the statistics tab of `useState('statistics')`, which it offers |
| AdminPage.DeniedIffNoCapability | src/pages/Admin.tsx:42-50 | access is denied exactly when no capability holds, that is, when the user has no role |
| AdminPage.LegalTabsVisibility | src/pages/Admin.tsx:80-99 | the leadership, laws, legal-school and lawyers tabs appear iff admin or law manager |
| AdminPage.TenderTabsVisibility | src/pages/Admin.tsx:101-112 | the tenders and enterprises tabs appear iff admin or licence manager |
| AdminPage.PanelTabs | src/pages/Admin.tsx:74-124 | every panel has statistics and feedback, and users iff admin |
| AdminUserRoles.RolesOf | src/components/admin/AdminUserRoles.tsx:51 | a user's roles are exactly the roles of their rows |
| AdminUserRoles.NoRowsNoRoles | src/components/admin/AdminUserRoles.tsx:51 | a user without rows gets no roles |
| AdminUserRoles.JoinUsers | src/components/admin/AdminUserRoles.tsx:48-52 | one entry per account in order, a missing e-mail as `''`, with that account's roles |
| AdminUserRoles.FindByEmail | src/components/admin/AdminUserRoles.tsx:72 | `find` gives the FIRST entry with that e-mail, or nothing exactly when none has it |
| AdminUserRoles.DecideAddRole | src/components/admin/AdminUserRoles.tsx:72-90 | an unknown e-mail inserts nothing; otherwise the first entry with that e-mail decides: a held role inserts nothing, else the row for that user and role is inserted |
| AdminUserRoles.InsertIsNew | src/components/admin/AdminUserRoles.tsx:82-97 | the inserted row is not already in the table, so the table stays free of duplicates, and the user's roles grow by that role |
| AdminUserRoles.RolesOfAppend | src/components/admin/AdminUserRoles.tsx:92-97 | a new row adds its role at the end of its owner's roles only |
| AdminUserRoles.RemoveRoleRows | src/components/admin/AdminUserRoles.tsx:123-127 | the delete removes exactly the rows matching both user and role, keeping the others in order |
| AdminUserRoles.RemoveRoleEffect | src/components/admin/AdminUserRoles.tsx:119-127 | after the delete the user's roles are the old ones without that role |
| AdminUserRoles.RemoveRoleKeepsOthers | src/components/admin/AdminUserRoles.tsx:123-127 | other users' roles are unchanged by the delete |
| AdminUserRoles.RoleLabels | src/components/admin/AdminUserRoles.tsx:147-154 | the three known roles get distinct labels; any other role is shown as it is |
| AdminUserRoles.RoleLabel | src/components/admin/AdminUserRoles.tsx:147-154 | `getRoleLabel`; `RoleLabels` states its properties |
| AdminUserRoles.RolesPanel.constructor | src/components/admin/AdminUserRoles.tsx:21-27 | starts loading with no users and an empty form whose role is `law_manager` |
| AdminUserRoles.RolesPanel.LoadUsers | src/components/admin/AdminUserRoles.tsx:33-65 | on success the list is the join of accounts and rows; on failure it is kept; loading ends |
| AdminUserRoles.RolesPanel.AddRole | src/components/admin/AdminUserRoles.tsx:67-117 | writes the decided row, if any; a successful insert closes and resets the dialog; otherwise nothing changes |
| AdminFeedback.MergeUpdate | src/components/admin/AdminFeedback.tsx:63-66 | a non-empty draft wins; an empty status or reply draft writes the stored status or reply back; a stored reply is never erased |
| AdminFeedback.ClearedDraftKeepsResponse | src/components/admin/AdminFeedback.tsx:65 | clearing the reply draft writes the stored reply back |
| AdminFeedback.Preload | src/components/admin/AdminFeedback.tsx:155-159 | selecting preloads the status, and the reply or `''` |
| AdminFeedback.SelectThenSaveWritesBack | src/components/admin/AdminFeedback.tsx:63-66 | saving untouched drafts writes back exactly the stored status and reply |
| AdminFeedback.StatusLabels | src/components/admin/AdminFeedback.tsx:100-108 | four distinct labels for the known statuses; others are shown as they are |
| AdminFeedback.TypeLabels | src/components/admin/AdminFeedback.tsx:110-118 | four distinct labels for the known message types; others are shown as they are |
| AdminFeedback.StatusLabel | src/components/admin/AdminFeedback.tsx:100-108 | `getStatusLabel`; `StatusLabels` states its properties |
| AdminFeedback.TypeLabel | src/components/admin/AdminFeedback.tsx:110-118 | `getTypeLabel`; `TypeLabels` states its properties |
| AdminFeedback.Inbox.constructor | src/components/admin/AdminFeedback.tsx:28-30 | starts with nothing selected and empty drafts |
| AdminFeedback.Inbox.Select | src/components/admin/AdminFeedback.tsx:155-159 | clicking a message selects it and preloads its drafts |
| AdminFeedback.Inbox.EditDrafts | src/components/admin/AdminFeedback.tsx:218-235 | typing replaces the drafts and keeps the selection |
| AdminFeedback.Inbox.Update | src/components/admin/AdminFeedback.tsx:57-88 | nothing is sent without a selection; the merged update is sent; success clears selection and drafts, failure keeps them |
| TenderForm.MissingRequired | src/components/TenderForm.tsx:82-83 | a question is missing iff it is required and its answer is absent or `''`; none missing iff every required one is answered |
| TenderForm.IsMissing | src/components/TenderForm.tsx:83 | an answer is missing iff absent or `''`; `MissingRequired` and `EmptyListIsNotMissing` state its consequences |
| TenderForm.EmptyListIsNotMissing | src/components/TenderForm.tsx:83 | an empty list answers a required checkbox question |
| TenderForm.OptionalNeverBlocks | src/components/TenderForm.tsx:82-85 | with no required question nothing blocks submission |
| TenderForm.OptionalAnswerIrrelevant | src/components/TenderForm.tsx:82-83 | the answer to a question that is not required never changes what blocks submission |
| TenderForm.Chars | src/components/TenderForm.tsx:224-226 | spreading a string gives its characters one by one |
| TenderForm.Toggle | src/components/TenderForm.tsx:222-229 | ticking appends the option; unticking removes every copy; the handler throws only when unticking over a non-empty string answer |
| TenderForm.ToggleShows | src/components/TenderForm.tsx:222-229 | after the handler the box shows the state that was clicked |
| TenderForm.CurrentChoices | src/components/TenderForm.tsx:224-225 | the current answer, or `[]` when there is none, as the handler spreads it; `Toggle` states the result built from it |
| TenderForm.IsTicked | src/components/TenderForm.tsx:222 | the checkbox's `checked` expression; `ToggleShows` states that it shows the clicked state after the handler |
| TenderForm.UntickKeepsOthers | src/components/TenderForm.tsx:228 | unticking keeps the other options in order with their multiplicities |
| TenderForm.TickThenUntick | src/components/TenderForm.tsx:224-228 | ticking a new option and unticking it restores the answer |
| TenderForm.FormSession.constructor | src/components/TenderForm.tsx:35-38 | starts loading with no questions and no answers |
| TenderForm.FormSession.LoadQuestions | src/components/TenderForm.tsx:41-64 | fetched questions replace the list; an error keeps it; loading ends |
| TenderForm.FormSession.SetAnswer | src/components/TenderForm.tsx:69-74 | only the answered question's key changes |
| TenderForm.FormSession.ToggleOption | src/components/TenderForm.tsx:222-229 | the answer becomes the toggled list, or stays when the handler throws |
| TenderForm.FormSession.Submit | src/components/TenderForm.tsx:76-125 | no user or a missing required answer sends nothing; otherwise all answers are sent; the form closes only on success and answers are never cleared |
| AdminTenderResponses.QuestionById | src/components/admin/AdminTenderResponses.tsx:101-103 | the FIRST question with that id, or nothing exactly when none has it |
| AdminTenderResponses.FormatResponse | src/components/admin/AdminTenderResponses.tsx:105-114 | a list answer to a known checkbox question is joined with `', '`; every other answer, including any answer to an unknown question, prints as `String` does |
| AdminTenderResponses.JsString | src/components/admin/AdminTenderResponses.tsx:107 | `String(answer)`: a string as it is, an array joined with `','`; used by `FormatResponse` |
| AdminTenderResponses.RowLabel | src/components/admin/AdminTenderResponses.tsx:193 | the heading is the question text when the question exists with non-empty text, and the unknown-question label otherwise (missing question or `''` text) |
| AdminTenderResponses.DeletedQuestionChangesSeparator | src/components/admin/AdminTenderResponses.tsx:105-114 | a checkbox answer prints with `', '`, but with `','` once its question is gone |
| AdminTenderResponses.RenderRows | src/components/admin/AdminTenderResponses.tsx:188-200 | one row per entry, in entry order, with key, heading and printed answer |
| AdminTenderResponses.RenderRow | src/components/admin/AdminTenderResponses.tsx:190-199 | one answer's key, heading and printed value; `RenderRows` and `EveryAnswerOneRow` state its use |
| AdminTenderResponses.EveryAnswerOneRow | src/components/admin/AdminTenderResponses.tsx:188-200 | every stored answer has exactly one row that prints it, and no row has a foreign or repeated key |
| AdminTenderQuestions.NotBlankIffHasText | src/components/admin/AdminTenderQuestions.tsx:116 | a choice survives the clean-up iff it is not all white space |
| AdminTenderQuestions.NotBlank | src/components/admin/AdminTenderQuestions.tsx:116 | `opt.trim() !== ''`; `NotBlankIffHasText` characterises it |
| AdminTenderQuestions.SavedOptions | src/components/admin/AdminTenderQuestions.tsx:115-117 | choices are saved only for select, radio and checkbox questions: exactly the non-blank drafts, in order, each as often as drafted |
| AdminTenderQuestions.KeepsNonBlankCounts | src/components/admin/AdminTenderQuestions.tsx:116 | the clean-up keeps each non-blank choice with its multiplicity and no blank one |
| AdminTenderQuestions.ToPayload | src/components/admin/AdminTenderQuestions.tsx:111-120 | the payload carries the tender, the draft's fields and the cleaned choices |
| AdminTenderQuestions.FormOf | src/components/admin/AdminTenderQuestions.tsx:218-228 | editing copies text, type, required flag and order, and shows the stored choices or one empty choice |
| AdminTenderQuestions.EditThenSaveKeepsQuestion | src/components/admin/AdminTenderQuestions.tsx:111-120 | a question in the editor's own shape is saved back unchanged |
| AdminTenderQuestions.WithoutIndex | src/components/admin/AdminTenderQuestions.tsx:237-242 | exactly the entry at the index goes, the others shift down in order; an index out of range changes nothing |
| AdminTenderQuestions.AddThenRemove | src/components/admin/AdminTenderQuestions.tsx:230-242 | adding a choice and removing it again gives the list back |
| AdminTenderQuestions.MoveTarget | src/components/admin/AdminTenderQuestions.tsx:175-179 | a move targets the question and its neighbour in the direction, when both exist |
| TenderSchema.FindIndexById | src/components/admin/AdminTenderQuestions.tsx:175 | `findIndex(q => q.id === id)`: `Lists.FindIndex` with the id test, first position or -1 |
| TenderSchema.HasChoices | src/components/admin/AdminTenderQuestions.tsx:115 | the `['select', 'radio', 'checkbox'].includes(type)` test; `SavedOptions` states what it decides |
| AdminTenderQuestions.SwapUpdates | src/components/admin/AdminTenderQuestions.tsx:182-185 | each of the two questions takes the other's `order_index`; `SuccessfulMoveSwaps` states the effect |
| AdminTenderQuestions.ApplyUpdate | src/components/admin/AdminTenderQuestions.tsx:188-191 | one `order_index` update of the row with that id; a missing id changes nothing |
| AdminTenderQuestions.SequentialWrites | src/components/admin/AdminTenderQuestions.tsx:187-194 | the awaited updates one after another, stopping at the first error; `SuccessfulMoveSwaps`, `FailedMoveEffect` and `MoveQuestion` state its effect |
| AdminTenderQuestions.SuccessfulMoveSwaps | src/components/admin/AdminTenderQuestions.tsx:182-194 | when both writes succeed the two orders are exchanged and no other row changes |
| AdminTenderQuestions.FailedMoveEffect | src/components/admin/AdminTenderQuestions.tsx:187-194 | a failed first write changes nothing; a failed second write leaves both questions with the same order |
| AdminTenderQuestions.OrderValues | src/components/admin/AdminTenderQuestions.tsx:182-185 | the order of each loaded question, read from the column |
| AdminTenderQuestions.SuccessfulMoveKeepsOrderValues | src/components/admin/AdminTenderQuestions.tsx:182-194 | a successful move permutes the order values: their multiset is unchanged |
| AdminTenderQuestions.SwapKeepsMultiset | src/components/admin/AdminTenderQuestions.tsx:182-185 | exchanging two entries keeps the multiset |
| AdminTenderQuestions.QuestionEditor.constructor | src/components/admin/AdminTenderQuestions.tsx:32-44 | starts with no questions, no tender, the blank draft and the dialog closed |
| AdminTenderQuestions.QuestionEditor.LoadQuestions | src/components/admin/AdminTenderQuestions.tsx:81-92 | the fetched questions replace the list |
| AdminTenderQuestions.QuestionEditor.SelectTender | src/components/admin/AdminTenderQuestions.tsx:66-67 | picking a tender changes only the selection |
| AdminTenderQuestions.QuestionEditor.ResetForm | src/components/admin/AdminTenderQuestions.tsx:207-216 | a blank draft whose order is the number of questions, and nothing being edited |
| AdminTenderQuestions.BlankForm | src/components/admin/AdminTenderQuestions.tsx:207-216 | the draft `resetForm` builds: empty text question, one empty choice, not required, ordered after the loaded questions; `QuestionEditor.ResetForm` states it |
| AdminTenderQuestions.QuestionEditor.OpenEdit | src/components/admin/AdminTenderQuestions.tsx:218-228 | the draft of the question, which is being edited, in an open dialog |
| AdminTenderQuestions.QuestionEditor.AddOption | src/components/admin/AdminTenderQuestions.tsx:230-235 | exactly one empty choice is appended |
| AdminTenderQuestions.QuestionEditor.RemoveOption | src/components/admin/AdminTenderQuestions.tsx:237-242 | exactly the choice at the index goes |
| AdminTenderQuestions.QuestionEditor.UpdateOption | src/components/admin/AdminTenderQuestions.tsx:244-251 | only the entry at the index changes, to the new value |
| AdminTenderQuestions.QuestionEditor.Submit | src/components/admin/AdminTenderQuestions.tsx:98-150 | nothing without a tender; an edit updates, otherwise an insert; success closes and resets, failure keeps everything |
| AdminTenderQuestions.QuestionEditor.MoveQuestion | src/components/admin/AdminTenderQuestions.tsx:174-205 | unknown id or an edge writes nothing; otherwise the column is the two writes applied in order up to the first failure, and the move succeeds iff both writes do |
| AdminLawyers.ToSaved | src/components/admin/AdminLawyers.tsx:66-70 | an empty specialization or contact becomes null, a non-empty one is kept, and the other fields pass through |
| AdminLawyers.FormOf | src/components/admin/AdminLawyers.tsx:173-183 | editing shows absent optional fields as `''` and copies the rest |
| AdminLawyers.EditThenSaveKeepsLawyer | src/components/admin/AdminLawyers.tsx:66-70 | opening and saving unchanged writes null back as null and keeps non-empty fields |
| AdminLawyers.SaveThenEditKeepsForm | src/components/admin/AdminLawyers.tsx:173-183 | reopening a saved draft shows the same draft |
| AdminLawyers.ToggleActive | src/components/admin/AdminLawyers.tsx:137-141 | the status written is the negation of the current one |
| AdminLawyers.ToggleTwice | src/components/admin/AdminLawyers.tsx:137-141 | toggling twice restores the status |
| AdminLawyers.LawyersEditor.constructor | src/components/admin/AdminLawyers.tsx:27-35 | starts with the empty active draft and the dialog closed |
| AdminLawyers.LawyersEditor.ResetForm | src/components/admin/AdminLawyers.tsx:162-171 | every text field `''`, active, nothing being edited |
| AdminLawyers.LawyersEditor.OpenEdit | src/components/admin/AdminLawyers.tsx:173-184 | the lawyer's draft, being edited, in an open dialog |
| AdminLawyers.LawyersEditor.Save | src/components/admin/AdminLawyers.tsx:62-107 | an edit updates the edited row, otherwise an insert, of the normalised draft; success closes and resets, failure keeps everything |
| AdminLegalSchool.ToSaved | src/components/admin/AdminLegalSchool.tsx:61-65 | empty content or link becomes null, non-empty values are kept, and the title passes through |
| AdminLegalSchool.FormOf | src/components/admin/AdminLegalSchool.tsx:141-149 | editing shows absent content or link as `''` |
| AdminLegalSchool.EditThenSaveKeepsTopic | src/components/admin/AdminLegalSchool.tsx:61-65 | opening and saving unchanged keeps null and non-empty values |
| AdminLegalSchool.SaveThenEditKeepsForm | src/components/admin/AdminLegalSchool.tsx:141-149 | reopening a saved draft shows the same draft |
| AdminLegalSchool.TopicsEditor.constructor | src/components/admin/AdminLegalSchool.tsx:24-30 | starts with the empty draft and the dialog closed |
| AdminLegalSchool.TopicsEditor.ResetForm | src/components/admin/AdminLegalSchool.tsx:132-139 | all three fields `''` and nothing being edited |
| AdminLegalSchool.TopicsEditor.OpenEdit | src/components/admin/AdminLegalSchool.tsx:141-150 | the topic's draft, being edited, in an open dialog |
| AdminLegalSchool.TopicsEditor.Save | src/components/admin/AdminLegalSchool.tsx:57-103 | an edit updates, otherwise an insert, of the normalised draft; success closes and resets, failure keeps everything |
| AdminLeadership.FormOf | src/components/admin/AdminLeadership.tsx:140-150 | editing copies name, position and order, and shows an absent photo or biography as `''` |
| AdminLeadership.RowOf | src/components/admin/AdminLeadership.tsx:64-68 | the saved row carries the draft as typed, so photo and biography are never null |
| AdminLeadership.SaveThenEditKeepsForm | src/components/admin/AdminLeadership.tsx:140-150 | reopening a saved draft shows the same draft |
| AdminLeadership.EditThenSaveFillsNulls | src/components/admin/AdminLeadership.tsx:64-68 | opening and saving unchanged keeps every field, except that a null photo or biography becomes `''` |
| AdminLeadership.OrderIndexInput | src/components/admin/AdminLeadership.tsx:229 | input that does not parse gives 0; otherwise the parsed number |
| AdminLeadership.OrderIndexRoundTrip | src/components/admin/AdminLeadership.tsx:229 | a number typed in decimal is stored as that number |
| AdminLeadership.ClearedOrderIndexIsZero | src/components/admin/AdminLeadership.tsx:229 | a cleared field stores 0 |
| AdminLeadership.LeadershipEditor.constructor | src/components/admin/AdminLeadership.tsx:23-33 | starts with no members, the empty draft at order 0 and the dialog closed |
| AdminLeadership.LeadershipEditor.LoadMembers | src/components/admin/AdminLeadership.tsx:39-47 | the fetched members replace the list |
| AdminLeadership.LeadershipEditor.ResetForm | src/components/admin/AdminLeadership.tsx:129-138 | an empty draft whose order is the number of members, nothing being edited |
| AdminLeadership.LeadershipEditor.OpenEdit | src/components/admin/AdminLeadership.tsx:140-151 | the member's draft, being edited, in an open dialog |
| AdminLeadership.LeadershipEditor.SetOrderIndex | src/components/admin/AdminLeadership.tsx:229 | typing in the order field stores its parsed value, or 0 |
| AdminLeadership.LeadershipEditor.Save | src/components/admin/AdminLeadership.tsx:60-99 | the draft itself is written as an update or an insert; success closes and resets, failure keeps everything |

## Left out

- Every remote call (`supabase` queries, inserts, updates and deletes, `auth.admin.listUsers`, `useAuth`) is a parameter: a fetched list or an `Outcome`. The refetch after each write is I/O and is not modelled.
- Server-side filtering and sorting (`.eq`, `.order`): lists arrive already filtered and sorted.
- React plumbing: rendering, toasts, dialog open/close triggers, `useEffect` scheduling, and the async interleaving of fetches and writes. Concurrency in general: each handler runs to completion in the model.
- The `confirm` dialogs before deletes, and the delete handlers themselves. The delete of a role row is modelled as `AdminUserRoles.RemoveRoleRows`. The deletes of questions, lawyers, topics and members are single backend calls with no client logic.
- JsText.Lower: `toLowerCase` maps ASCII, the basic Cyrillic capitals and `Ґ`. Other Unicode case mappings (for example `İ` or Greek) leave the character unchanged.
- JsText.ParseIntRoundTrip: numbers are unbounded integers. JavaScript numbers are doubles, which lose precision above 2^53, so `parseInt` of a longer digit string is rounded there.
- JsText.NatToString: from 1e21 on, JavaScript's `String` switches to exponent form (`1e+21`); the model always gives the digits.
- AdminLeadership.OrderIndexRoundTrip: holds for every integer in the model; in JavaScript only for the integers a double represents exactly and below 1e21.
- JsText: Dafny characters are Unicode scalar values, while JavaScript indexes, `includes` and `toLowerCase` work on UTF-16 code units. For a name starting with a character outside the Basic Multilingual Plane, `n[0]` in JavaScript is a lone surrogate, while `LeadershipPage.Head` gives the whole character.
- JsText.ParseInt: decimal only. The number input never yields hexadecimal or another radix. Floating-point inputs are read by their leading digits, as `parseInt` does.
- AdminTenderResponses.RenderRows: the order of `Object.entries` is taken as a parameter (`Enumerates`), not computed.
- AdminTenderQuestions.QuestionEditor.UpdateOption: requires an existing index, since the inputs only ever pass the index of a displayed choice. An out-of-range index, which would extend the JavaScript array, is not modelled.
- AdminUserRoles.JoinUsers: a null role table (`userRoles?.… || []`) is the same as an empty one.
- Date formatting, colours and icons (`getStatusColor`, `getRoleColor`, `toLocaleDateString`), the statistics tab, and the enterprises, laws and tenders admin editors are not part of this model.
