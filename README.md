# Diabetes companion app: screen logic in Dafny

This project models the state logic of five screens of a React Native app
for people with diabetes:

- the treatment editor (`app/menu/traitement.js`): treatments, their
  medications and the intake-moment chips;
- the registration wizard (`app/register.js`): the e-mail and phone
  shape checks, step validation, and moving between steps;
- the glycaemia log (`app/menu/sucre.js`): list, add and delete of
  readings against a remote store, date normalisation, the comma fix and
  the status colour;
- the doctor screen (`app/menu/medecin.js`): the message box, the
  treatment list with its status transitions, and the add/edit form;
- the dish suggestions (`app/menu/plats.js`): the favourite toggle, the
  search-and-moment filter and the list of moments.

Handlers that build a new list from the old one (treatment editor, dish
suggestions) are functions over sequences. Screens whose handlers update
several pieces of state one after another (registration, glycaemia log,
doctor screen) are classes: each handler is a method that states the
complete new state and the alerts it shows.

Everything outside the app is a parameter. A network request's outcome is
a `Host.Response` (`Ok`, `NotOk` or `Exception`). An answer to a
confirmation dialog is a `confirmed` flag. Fresh ids and the current time
are given values. An `Alert.alert` call is a `Host.Alert` value returned in
order.

Files:

- `host.dfy`: `Option`, `Alert`, `Response`.
- `lists.dfy`: JavaScript's `map`, `filter` and `Array.from(new Set(...))` on sequences, with their laws.
- `text.dfy`: whitespace as JavaScript's `trim` and `\s` define it, `toLowerCase` and `includes`.
- `traitements.dfy`, `register.dfy`, `sucre.dfy`, `medecin.dfy`, `plats.dfy`: one module per screen.

## Model

| member | source | states |
|---|---|---|
| Traitements.AjouterTraitement | app/menu/traitement.js:26-36 | one entry is appended at the end, with the fresh id, empty description, no medications and not in edit mode; earlier entries are unchanged |
| Traitements.AjouterTraitementWellFormed | app/menu/traitement.js:26-36 | with an id no treatment has, ids stay unique after the append |
| Traitements.ToggleEdition | app/menu/traitement.js:38-44 | `enEdition` flips exactly on the entries with that id; length, ids, descriptions and medications are kept |
| Traitements.ToggleEditionInvolution | app/menu/traitement.js:38-44 | toggling the same id twice gives the original list |
| Traitements.ApplyTraitementEdit | app/menu/traitement.js:49 | `{ ...t, [champ]: valeur }` changes the named field only and keeps the id |
| Traitements.ModifierTraitement | app/menu/traitement.js:46-52 | length and every id are kept; only the matching entries get the edit, others are equal to before |
| Traitements.AjouterMedicament | app/menu/traitement.js:54-68 | the matching treatment gets one `{nom '', moment []}` medication at the end of its list; other treatments and the outer length are unchanged |
| Traitements.AjouterMedicamentWellFormed | app/menu/traitement.js:54-68 | with a medication id unused in the target treatment, ids stay unique |
| Traitements.ApplyMedicamentEdit | app/menu/traitement.js:82 | `{ ...m, [champ]: valeur }` changes the named field only and keeps the id |
| Traitements.EditMedicaments | app/menu/traitement.js:81-83 | the inner map edits exactly the medications with that id and keeps length and order |
| Traitements.ModifierMedicament | app/menu/traitement.js:70-88 | only the matching medication in the matching treatment changes, by the named field; every other medication, treatment and field is unchanged |
| Traitements.ModifierMedicamentWellFormed | app/menu/traitement.js:70-88 | editing a medication keeps treatment and medication ids unique |
| Traitements.SansMedicament | app/menu/traitement.js:96 | the result is an order-preserving sublist holding exactly the medications with another id, each as many times as before |
| Traitements.SupprimerMedicament | app/menu/traitement.js:90-101 | the target treatment keeps its other medications in order and only those; no other treatment changes |
| Traitements.SupprimerMedicamentWellFormed | app/menu/traitement.js:90-101 | removing a medication keeps ids unique |
| Traitements.SupprimerTraitement | app/menu/traitement.js:103-117 | on confirmation, an order-preserving sublist with exactly the treatments of another id, each as many times as before; on cancel, the same list |
| Traitements.SupprimerTraitementWellFormed | app/menu/traitement.js:103-117 | removing a treatment keeps ids unique |
| Traitements.ToggleMoment | app/menu/traitement.js:234-251 | the pressed moment's membership is negated, other moments keep theirs; a checked moment is filtered out, keeping the order and the count of each other moment; an unchecked one is appended |
| Traitements.PresserMoment | app/menu/traitement.js:226-251 | pressing a chip: every medication with the rendered medication's id in that treatment gets the rendered moments with that moment negated and the others kept; ids, names and all other medications and treatments are unchanged |
| Traitements.ToggleMomentKeepsChips | app/menu/traitement.js:226-251 | pressing one of the chips 'Matin', 'Midi', 'Soir' keeps a `moment` list made only of those chips, each at most once |
| Traitements.InitialScreen | app/menu/traitement.js:17-18 | the screen starts with a well-formed (empty) list and a diabetes type that two presses of the button restore |
| Traitements.ToggleInfosEdition | app/menu/traitement.js:24 | the info-card edit flag flips and nothing else changes |
| Traitements.BasculerTypeDiabete | app/menu/traitement.js:153-154 | the type becomes 'Type 1' or 'Type 2' and differs from a previous 'Type 1' or 'Type 2'; nothing else changes |
| Traitements.BasculerTypeDiabeteTwice | app/menu/traitement.js:153-154 | pressing twice from either type restores the screen |
| Traitements.SetUtiliseInsuline | app/menu/traitement.js:166-169 | the insulin switch sets that flag and nothing else |
| Register.FormData.With | app/register.js:70-72 | the named field gets the value and every other field keeps its own |
| Register.IsValidEmail | app/register.js:23-26 | an accepted address has at least five characters and no whitespace |
| Register.EmailIsLocalAtDomain | app/register.js:23-26 | the e-mail pattern holds exactly for `local@domain`: `local` non-empty without whitespace or `@`, `domain` without whitespace or `@`, with a `.` neither first nor last |
| Register.ValidEmailHasOneAt | app/register.js:23-26 | an accepted address contains exactly one `@` |
| Register.EmailExampleValid | app/register.js:23-26 | "jean.dupont@mail.fr" is accepted |
| Register.EmailExamplesInvalid | app/register.js:23-26 | "jean@mail" (no dot) and "jean dupont@mail.fr" (a space) are refused |
| Register.IsValidPhoneNumber | app/register.js:28-31 | an accepted number has 10 to 16 characters, begins with `0` or `+` and ends with a digit |
| Register.RenderedPhoneValid | app/register.js:28-31 | every `0`/`+33` prefix, digit 1-9 and four two-digit groups, each with an optional `-`, `.` or whitespace separator, is accepted |
| Register.ValidPhoneParses | app/register.js:28-31 | every accepted phone number is written in that form, and the lemma returns the form |
| Register.PhoneNumberShape | app/register.js:28-31 | the phone pattern holds exactly for the strings of that form |
| Register.PhoneExampleNational | app/register.js:28-31 | "06 12 34 56 78" is accepted |
| Register.PhoneExampleInternational | app/register.js:28-31 | "+33612345678" is accepted |
| Register.RequiredFields | app/register.js:75-80 | steps 1 to 3 have required fields and no other step has any; e-mail and phone are required at step 1 only; the diabetes and medicine types are never required outright |
| Register.StepError.Message | app/register.js:84-111 | every alert text is a sentence ending in '.'; a missing field's text begins `Le champ "` |
| Register.KeyInjective | app/register.js:75-80 | no two fields share a `formData` key |
| Register.MessageIdentifiesError | app/register.js:84-111 | two different errors never show the same alert text |
| Register.FirstEmpty | app/register.js:82-87 | `None` exactly when no listed field is empty; otherwise the first empty field in list order |
| Register.StepCheck | app/register.js:74-115 | passes exactly when every required field of the step is filled and the step's own checks hold; any empty required field fails with a "required" error naming a required, empty field |
| Register.ValidateStep | app/register.js:74-115 | the loop over the required fields with its early return, then the step checks, gives the verdict of `StepCheck` |
| Register.StepCheckProperties | app/register.js:89-112 | a pass at step 1 implies valid e-mail, valid phone and matching passwords; step 2 with 'oui' and no diabetes type fails; step 3 with 'oui' and no medicine type fails; step 4 has no requirement |
| Register.SignupAlert | app/register.js:120-156 | the last step's alert is 'Succès' with the welcome text for the e-mail exactly when both requests succeed and a token comes back, and 'Erreur' otherwise; a thrown error shows its own message; a refused sign-up or login shows the server's message, or 'Erreur lors de l'inscription' / 'Erreur lors de la connexion automatique' when it has none; a missing token shows 'Token non reçu après connexion' |
| Register.RegisterScreen.constructor | app/register.js:37-49 | the wizard starts at step 1 with every field empty, logged out |
| Register.RegisterScreen.HandleChange | app/register.js:70-72 | the form gets the one field changed; step and login state are kept |
| Register.RegisterScreen.HandleNext | app/register.js:117-159 | a failed check keeps the step and shows its message; a pass at steps 1-3 moves one step on; step 4 stays and shows the sign-up alert, logging in only on success; the step stays in 1..4 |
| Register.RegisterScreen.HandleBack | app/register.js:165-176 | the step goes down by one only above 1; it stays in 1..4 and the form is kept |
| Sucre.NormalizeDate | app/menu/sucre.js:39-41 | an object with a non-zero `_seconds` becomes `_seconds*1000` ms; anything else, `_seconds == 0` included, is passed on as is |
| Sucre.NormalizeReading | app/menu/sucre.js:37-42 | id, value and note are kept; only the date is rewritten |
| Sucre.Listing | app/menu/sucre.js:31-48 | a response whose body is an array gives a list of the same length and order, whatever its `ok`; an exception or a non-array body gives nothing |
| Sucre.ListingExamples | app/menu/sucre.js:37-42 | epoch seconds become milliseconds; an unparseable date string and a zero `_seconds` are passed on unchanged; a non-ok array is still listed |
| Sucre.GetStatusColor | app/menu/sucre.js:104-108 | hypo colour exactly below 70, hyper colour exactly above 180, normal colour exactly from 70 to 180 |
| Sucre.StatusColorBoundaries | app/menu/sucre.js:104-108 | 69 is hypo, 70 and 180 are normal, 181 is hyper |
| Sucre.DisplayedDate | app/menu/sucre.js:113-119 | 'Date invalide' exactly when the host's date has no time value; otherwise the locale text of that time |
| Sucre.ReplaceFirstComma | app/menu/sucre.js:56 | the length is kept; non-comma characters are kept; a comma becomes '.' exactly when no comma precedes it |
| Sucre.ReplaceFirstCommaNoComma | app/menu/sucre.js:56 | a string without a comma is unchanged |
| Sucre.ReplaceFirstCommaAt | app/menu/sucre.js:56 | with its first comma at index k, only index k changes, to '.' |
| Sucre.ReplaceFirstCommaExamples | app/menu/sucre.js:56 | "1,2" becomes "1.2" and "1,2,3" becomes "1.2,3" |
| Sucre.SucreScreen.constructor | app/menu/sucre.js:17-19 | empty value, empty note, no readings |
| Sucre.SucreScreen.FetchEntries | app/menu/sucre.js:31-48 | a listed body replaces the readings; otherwise they are kept and the loading error is shown |
| Sucre.SucreScreen.HandleConfirm | app/menu/sucre.js:50-77 | an empty value sends nothing and changes nothing; otherwise the comma-fixed value is sent with the note; an ok answer clears both fields and refreshes; a non-ok answer or an exception keeps everything and shows the server's error or the fallback text |
| Sucre.SucreScreen.DeleteEntry | app/menu/sucre.js:79-102 | a cancel sends nothing; a confirmed delete sends the id and refreshes only on an ok answer; after a non-ok answer or an exception the readings are kept and the matching error is shown |
| Text.Trim | app/menu/medecin.js:46 | `trim()` returns the block of the string after its leading whitespace and before its trailing whitespace; a non-empty result begins and ends with a non-whitespace character |
| Text.TrimEmptyIffBlank | app/menu/medecin.js:46 | `trim()` gives the empty string exactly when every character is JavaScript whitespace |
| Medecin.BlankForm | app/menu/medecin.js:114-120 | the reset form has empty name, dosage and frequency, the current start date, status 'active', and no other key |
| Medecin.RemoveTreatment | app/menu/medecin.js:87-89 | an order-preserving sublist with exactly the treatments of another id, each as many times as before |
| Medecin.SetStatus | app/menu/medecin.js:90-96 | length kept; matching treatments get the status with every other key unchanged; others are equal to before |
| Medecin.SaveTreatment | app/menu/medecin.js:105-110 | in edit mode, the length is kept and the matching entries take the form's keys over their own; in add mode, exactly one entry is appended, with the fresh id and the form's other keys |
| Medecin.SaveUnchangedEdit | app/menu/medecin.js:105-107 | with unique ids, saving an edited treatment unchanged gives the list back |
| Medecin.StatusTransitions | app/menu/medecin.js:90-96 | the last status set wins: pausing then completing is completing, and setting a status twice is setting it once |
| Medecin.GetStatusColor | app/menu/medecin.js:130-137 | 'active', 'paused' and 'completed' map to three distinct colours, and exactly the other statuses to '#666' |
| Medecin.GetStatusText | app/menu/medecin.js:139-146 | 'active', 'paused' and 'completed' map to three distinct labels, and exactly the other statuses to '' |
| Medecin.MedecinScreen.constructor | app/menu/medecin.js:10-43 | the initial state: empty message, the two sample treatments, modal closed, not editing, blank form, picker closed on `startDate` |
| Medecin.MedecinScreen.HandleSendMessage | app/menu/medecin.js:45-52 | an empty or whitespace-only message is refused and kept; any other is acknowledged and cleared |
| Medecin.MedecinScreen.HandleTreatmentAction | app/menu/medecin.js:75-97 | 'edit' loads the treatment into the form, records it as edited and opens the modal; a confirmed delete, pause or complete updates the list; anything else changes nothing |
| Medecin.MedecinScreen.HandleSaveTreatment | app/menu/medecin.js:99-121 | a missing name, dosage or frequency changes nothing and shows the error; otherwise the list is saved, the modal closes, editing ends and the form is reset |
| Medecin.MedecinScreen.HandleDateChange | app/menu/medecin.js:123-128 | the picker closes; a chosen date is stored under the field being picked |
| Plats.ToggleFavori | app/menu/plats.js:74-78 | `favori` flips exactly on the dishes with that id; length, order and every other field are kept |
| Plats.ToggleFavoriInvolution | app/menu/plats.js:74-78 | toggling twice gives the list back |
| Text.Lower | app/menu/plats.js:81-82 | `toLowerCase()` keeps the length, turns each capital into the small letter 32 code points above, keeps every other character, and leaves no capital |
| Text.Contains | app/menu/plats.js:81-82 | `includes`: the empty needle is always found, a needle longer than the text never is, and one as long as the text only when equal to it |
| Plats.Matches | app/menu/plats.js:81-84 | a dish passes when it matches the search and the moment; an empty query leaves only the moment test, no selected moment only the search |
| Plats.FilteredPlats | app/menu/plats.js:80-85 | an order-preserving sublist holding exactly the dishes that match both the search and the moment, each as many times as before |
| Plats.NoFilterShowsAll | app/menu/plats.js:80-85 | an empty query with no moment selected shows every dish |
| Plats.ToggleCommutesWithFilter | app/menu/plats.js:74-85 | toggling a favourite never changes which dishes pass the filter |
| Plats.SearchSameUpToCase | app/menu/plats.js:81-82 | two queries equal after lower-casing select the same dishes |
| Plats.SearchIgnoresCase | app/menu/plats.js:81-82 | a query and its lower-cased form select the same dishes |
| Plats.FilterByMoment | app/menu/plats.js:83 | a selected moment keeps only dishes of that moment, whatever the query; with the empty query, every dish of that moment is shown |
| Plats.Moments | app/menu/plats.js:87 | each moment appears once, every dish's moment appears, and nothing else |
| Plats.MomentsInFirstAppearanceOrder | app/menu/plats.js:87 | the moments are in the order of their first appearance |
| Plats.CatalogueMoments | app/menu/plats.js:15-56 | the catalogue's moments are Déjeuner, Dîner, Collation, Petit déjeuner |
| Lists.DistinctFirstAppearance | app/menu/plats.js:87 | `Array.from(new Set(s))` lists elements in the order of their first occurrence in `s` |

## Left out

- Network requests, JSON encoding and decoding, the server addresses and `AsyncStorage.setItem('userToken', ...)`: the backend and the device store are external. Their outcomes are parameters, and the stored token is not modelled.
- `uuid.v4()`, `Date.now()` and `new Date().toISOString()`: fresh ids and the current time are parameters. Only the uniqueness lemmas require a fresh id to be unused.
- Traitements.AjouterMedicament: `ajouterMedicament` draws a new uuid for each treatment whose id matches. The model uses one id, which is the same whenever treatment ids are unique.
- `new Date(...)`, `getTime()` and `toLocaleString()` in the glycaemia log: the host's date parsing and formatting. Only the branch that builds the argument is modelled, and `getTime` is a parameter of `Sucre.DisplayedDate`.
- Sucre.NormalizeDate: `_seconds` is modelled as an integer or missing. A truthy non-number `_seconds` is not modelled.
- Glycaemia values are exact reals. JavaScript number coercion, `NaN` and floating-point rounding are not modelled.
- Sucre.SucreScreen.HandleConfirm: the empty-value guard is `!sucre`, so a value made only of spaces is sent. The model follows the code.
- Text.Lower: `toLowerCase` is modelled for ASCII and Latin-1 capitals only, which covers the catalogue. Other scripts are not modelled.
- React's asynchronous state updates and closures over stale state: each handler runs to completion on the state it reads.
- Animations, styles, dark mode, rendering, and the contact links of the doctor screen (`Linking.openURL` and the appointment alert).
- The navigation and the shared login context outside the registration screen. Only the flag it sets is modelled.
- `app/index.js` and `app/menu/stats.js`: floating-point averages over fixed or random sample data.
- `app/login.js`: apart from an empty-field guard, it is a network wrapper.
- `app/menu/nutritionniste.js`: its only logic repeats the doctor screen's message check.
