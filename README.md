# Delivery tracking dashboard: verified model of its logic

The system is a delivery and pickup tracking web app. Administrators record
movements (an `entrega`, a delivery, or a `coleta`, a pickup) for clients,
manage clients and delivery persons, and assign pending movements to delivery
persons. A delivery person reports each movement as `entregue` (delivered),
`nao_entregue` (not delivered) or `avariado` (damaged), always with a
justification. All state lives inside the screen components.

This project models the logic under the markup, one Dafny module per source
file:

- `DeliveryDashboard`: the delivery person's status transition (a state
  machine over the movement list), the pending-only offer of actions, and the
  two counters.
- `AssignmentForm`: the candidate filter, the submit validation and the
  clearing of the selections.
- `AdminDashboard`: the search and status filter, and the per-status
  statistics over a list that never changes.
- `MovementForm`, `ClientForm`, `DeliveryPersonForm`: each form's record, its
  single-field update, its required-field check, its submit and reset, and its
  initial state. `MovementForm` also looks up the client's name.
- `Login`: the required-field check and the choice of dashboard by profile.

Shared modules: `JsText` (the JavaScript string operations `trim`,
`toLowerCase` and `includes`, and truthiness), `JsArray` (`filter`, `find` and
`findIndex`, and counting), `Domain` (statuses, movement types, toast
variants and form effects) and `Options`.

Stateful components are classes. Their fields are the component's `useState`
values, and every setter call is an immediate assignment. A handler returns
what it does to the outside world, in order: toasts (as their variant only),
calls of the `onSave`/`onAssign`/`onClose` props with their arguments, and the
route to navigate to. Clock reads and browser navigation are parameters and
results.

Where the code is looser than one might expect, the model follows the code:

- `updateMovementStatus` does not check the current status. A movement leaves
  `pendente` for good only because actions are offered for pending movements
  alone (`MarkMovementIgnoresCurrentStatus`).
- Every movement with the given id is updated. An unknown id updates nothing,
  yet the dialog is still reset and a success toast is still shown.
- The forms check only emptiness. A whitespace-only field passes, although the
  dashboard's `trim()` would reject it.
- `!m.deliveryPersonId` treats an empty id as "not assigned".
- The assignment submit passes the selected ids through unchecked.

## Model

| member | source | states |
|---|---|---|
| `JsText.TrimStart` | src/pages/DeliveryDashboard.tsx:61 | the result is the longest suffix not starting with whitespace; everything removed is whitespace |
| `JsText.TrimEnd` | src/pages/DeliveryDashboard.tsx:61 | the result is the longest prefix not ending with whitespace; everything removed is whitespace |
| `JsText.Trim` | src/pages/DeliveryDashboard.tsx:61 | `trim()` returns a part of the input that occurs in it and neither starts nor ends with whitespace; `TrimDropsOnlyWhitespace` states that only the leading and trailing whitespace is dropped |
| `JsText.TrimDropsOnlyWhitespace` | src/pages/DeliveryDashboard.tsx:61 | `trim()` is the part of the input that starts where the leading whitespace ends; everything before and after it is whitespace |
| `JsText.TrimEmptyIffBlank` | src/pages/DeliveryDashboard.tsx:61 | `!justification.trim()` holds exactly when every character is ECMAScript whitespace or a line terminator |
| `JsText.ToLower` | src/pages/AdminDashboard.tsx:62-63 | lower-casing keeps the length and maps each character on its own (ASCII letters only) |
| `JsText.ToLowerIdempotent` | src/pages/AdminDashboard.tsx:62-63 | lower-casing twice equals lower-casing once |
| `JsText.IncludesEmpty` | src/pages/AdminDashboard.tsx:62-63 | every string includes the empty search term |
| `JsArray.Filter` | src/pages/AdminDashboard.tsx:61-66 | `filter` returns a sub-list in the original order, only elements satisfying the predicate, with every occurrence of those kept |
| `JsArray.FilterMembership` | src/components/AssignmentForm.tsx:28 | an element is kept iff it is in the input and satisfies the predicate |
| `JsArray.FilterKeepsAll` | src/pages/AdminDashboard.tsx:61-66 | when every element satisfies the predicate, the filter returns the whole list |
| `JsArray.FilterCongruent` | src/pages/AdminDashboard.tsx:61-66 | predicates that agree on the elements filter alike |
| `JsArray.FindIndex` | src/components/MovementForm.tsx:55 | the index found is the first element satisfying the predicate; none means no element does |
| `JsArray.Find` | src/components/MovementForm.tsx:55 | `find` returns the first matching element, and `undefined` exactly when none matches |
| `JsArray.CountBy` | src/pages/DeliveryDashboard.tsx:209-210 | a count never exceeds the list length |
| `JsArray.CountByIsFilterLength` | src/pages/AdminDashboard.tsx:70-73 | `filter(m => m.status === s).length` equals the count of elements with status `s` |
| `JsArray.CountByUpdate` | src/pages/DeliveryDashboard.tsx:70-76 | replacing one element moves it from the old value's count to the new one's and leaves other counts alone |
| `Domain.StatusNameInjective` | src/pages/AdminDashboard.tsx:64 | distinct statuses have distinct names, and none is named "todos" |
| `Domain.StatusCountsPartition` | src/pages/AdminDashboard.tsx:68-74 | the four per-status counts add up to the length of the list |
| `DeliveryDashboard.MarkMovement` | src/pages/DeliveryDashboard.tsx:70-76 | the list keeps its length, order and ids; each movement with the target id gets the new status, the untrimmed justification and the timestamp, and keeps all its other fields; every other movement is unchanged |
| `DeliveryDashboard.MarkMovementReplacesOne` | src/pages/DeliveryDashboard.tsx:70-76 | with unique ids, exactly one list element is replaced |
| `DeliveryDashboard.MarkMovementUnknownId` | src/pages/DeliveryDashboard.tsx:71-75 | an id matching no movement leaves the list unchanged |
| `DeliveryDashboard.MarkMovementNeverSetsPending` | src/pages/DeliveryDashboard.tsx:60-76 | no transition makes a movement pending |
| `DeliveryDashboard.OffersStatusActions` | src/pages/DeliveryDashboard.tsx:88 | the status buttons are offered exactly when the movement's status string is "pendente" |
| `DeliveryDashboard.MarkMovementIgnoresCurrentStatus` | src/pages/DeliveryDashboard.tsx:60-76 | with unique ids, the update overwrites a movement that is offered no actions (already final) with the new outcome, and the pending count does not change; only the guard at line 88 prevents this |
| `DeliveryDashboard.PendingCount` | src/pages/DeliveryDashboard.tsx:209 | `pendingCount` is the length of the list filtered to status "pendente" |
| `DeliveryDashboard.CompletedCount` | src/pages/DeliveryDashboard.tsx:210 | `completedCount` is the length of the list filtered to status "entregue" |
| `DeliveryDashboard.CountersBounded` | src/pages/DeliveryDashboard.tsx:209-210 | pendingCount + completedCount is at most the number of movements |
| `DeliveryDashboard.ReportOnOfferedMovement` | src/pages/DeliveryDashboard.tsx:88 | a report on an offered (pending) movement lowers pendingCount by one; completedCount rises by one exactly when the report is "entregue" |
| `DeliveryDashboard.Screen.constructor` | src/pages/DeliveryDashboard.tsx:55-57 | initial state: the given list, no selection, empty justification |
| `DeliveryDashboard.Screen.SelectMovement` | src/pages/DeliveryDashboard.tsx:96 | opening a dialog selects its movement and changes nothing else |
| `DeliveryDashboard.Screen.SetJustification` | src/pages/DeliveryDashboard.tsx:111 | typing (or "Cancelar" with "") sets the justification and changes nothing else |
| `DeliveryDashboard.Screen.UpdateMovementStatus` | src/pages/DeliveryDashboard.tsx:60-85 | a blank justification gives an error toast and changes nothing; otherwise the list becomes `MarkMovement` of the old list, and the selection and justification are reset |
| `AssignmentForm.IsAssignable` | src/components/AssignmentForm.tsx:28 | a movement is a candidate exactly when it is pending and its assignee id is missing or empty |
| `AssignmentForm.PendingMovements` | src/components/AssignmentForm.tsx:28 | the candidates are exactly the pending movements without an assignee id (or with an empty one), in original order, each as often as in the input |
| `AssignmentForm.NoCandidateIffNoneAssignable` | src/components/AssignmentForm.tsx:28 | the candidate list is empty exactly when no movement is pending and unassigned |
| `AssignmentForm.SubmitDisabled` | src/components/AssignmentForm.tsx:136 | submit is disabled exactly when no movement is pending and unassigned |
| `AssignmentForm.Form.constructor` | src/components/AssignmentForm.tsx:22-23 | both selections start empty |
| `AssignmentForm.Form.SelectMovement` | src/components/AssignmentForm.tsx:69 | selecting a movement leaves the delivery person selection alone |
| `AssignmentForm.Form.SelectDeliveryPerson` | src/components/AssignmentForm.tsx:118 | selecting a delivery person leaves the movement selection alone |
| `AssignmentForm.Form.HandleSubmit` | src/components/AssignmentForm.tsx:30-55 | a missing selection gives only an error toast and keeps both selections; otherwise `onAssign` is called once with the two ids as selected, then a success toast, both selections cleared, `onClose` |
| `AdminDashboard.MatchesSearch` | src/pages/AdminDashboard.tsx:62-63 | the empty term matches every movement; a term longer than both the client and the delivery person matches none |
| `AdminDashboard.MatchesStatus` | src/pages/AdminDashboard.tsx:64 | "todos" matches every movement; a status's name matches exactly the movements with that status |
| `AdminDashboard.FilteredMovements` | src/pages/AdminDashboard.tsx:61-66 | the result is an order-preserving sub-list; a movement is kept iff its client or delivery person contains the term, ignoring case, and the filter is "todos" or its status; each kept movement appears as often as in the input |
| `AdminDashboard.NoFilterShowsAll` | src/pages/AdminDashboard.tsx:61-65 | an empty search with "todos" shows every movement |
| `AdminDashboard.StatusFilterExact` | src/pages/AdminDashboard.tsx:64 | with a filter other than "todos", every movement shown has exactly that status; a value naming no status shows nothing |
| `AdminDashboard.SearchIgnoresCase` | src/pages/AdminDashboard.tsx:62-63 | lower-casing the search term first shows the same movements |
| `AdminDashboard.ComputeStats` | src/pages/AdminDashboard.tsx:68-74 | total is the list length, each card counts its status, and the four cards add up to the total |
| `AdminDashboard.EmptySearchStatusCount` | src/pages/AdminDashboard.tsx:61-73 | with an empty search, a status filter keeps as many movements as have that status |
| `AdminDashboard.StatusFilterMatchesStats` | src/pages/AdminDashboard.tsx:61-74 | filtering by a status with an empty search lists as many movements as that status's card shows |
| `AdminDashboard.Screen.constructor` | src/pages/AdminDashboard.tsx:57-59 | empty search, "todos", and the given list, which is a constant |
| `AdminDashboard.Screen.SetSearchTerm` | src/pages/AdminDashboard.tsx:156 | only the search term changes |
| `AdminDashboard.Screen.SetStatusFilter` | src/pages/AdminDashboard.tsx:161 | only the status filter changes |
| `MovementForm.WithField` | src/components/MovementForm.tsx:71-73 | the named field takes the value and the other fields keep theirs |
| `MovementForm.HasRequired` | src/components/MovementForm.tsx:46 | the check passes exactly when no field `handleInputChange` can set is empty |
| `MovementForm.WhitespaceTextAccepted` | src/components/MovementForm.tsx:46 | a whitespace-only description and quantity pass the check although `trim()` would empty them |
| `MovementForm.InitialFormData` | src/components/MovementForm.tsx:34-39 | a new form is a blank delivery and fails the check; an edit form copies the type, client, description and quantity, and passes the check iff the movement has a client, description and quantity |
| `MovementForm.SelectedClientName` | src/components/MovementForm.tsx:55-59 | the name of the first client with that id, or '' when none matches |
| `MovementForm.Form.constructor` | src/components/MovementForm.tsx:34-39 | the form starts as the initial record |
| `MovementForm.Form.HandleInputChange` | src/components/MovementForm.tsx:71-73 | one field is updated |
| `MovementForm.Form.HandleSubmit` | src/components/MovementForm.tsx:43-69 | an empty field gives only an error toast and keeps the form; otherwise `onSave` gets the four fields plus the looked-up client name (no id, status or date), then a success toast, a reset to a blank delivery, `onClose` |
| `ClientForm.WithField` | src/components/ClientForm.tsx:58-60 | the named field takes the value and the other fields keep theirs |
| `ClientForm.WithFieldOwnValue` | src/components/ClientForm.tsx:58-60 | writing back a field's own value changes nothing |
| `ClientForm.WithFieldTwice` | src/components/ClientForm.tsx:58-60 | of two writes to one field the last wins |
| `ClientForm.HasRequired` | src/components/ClientForm.tsx:39 | the check passes exactly when every empty field is one of address, phone and email |
| `ClientForm.InitialFormData` | src/components/ClientForm.tsx:26-32 | a new form is all '' and fails the check; an edit form copies code and name, copies address, phone and email when present and has '' for a missing one, and passes the check iff the client has a code and a name |
| `ClientForm.WhitespaceCodeAndNameAccepted` | src/components/ClientForm.tsx:39 | a whitespace-only code and name pass the check although `trim()` would empty them |
| `ClientForm.Form.constructor` | src/components/ClientForm.tsx:26-32 | the form starts as the initial record |
| `ClientForm.Form.HandleInputChange` | src/components/ClientForm.tsx:58-60 | one field is updated |
| `ClientForm.Form.HandleSubmit` | src/components/ClientForm.tsx:36-56 | an empty code or name gives only an error toast and keeps the form; otherwise `onSave` gets the record as entered, then a success toast, all five fields reset to '', `onClose` |
| `DeliveryPersonForm.WithField` | src/components/DeliveryPersonForm.tsx:55-57 | the named field takes the value and the other fields keep theirs |
| `DeliveryPersonForm.HasRequired` | src/components/DeliveryPersonForm.tsx:36 | the check passes exactly when no field `handleInputChange` can set is empty |
| `DeliveryPersonForm.InitialFormData` | src/components/DeliveryPersonForm.tsx:24-29 | a new form is all '' and fails the check; an edit form copies code, name, email and password, and passes the check iff the person has every field |
| `DeliveryPersonForm.Form.constructor` | src/components/DeliveryPersonForm.tsx:24-29 | the form starts as the initial record |
| `DeliveryPersonForm.Form.HandleInputChange` | src/components/DeliveryPersonForm.tsx:55-57 | one field is updated |
| `DeliveryPersonForm.Form.HandleSubmit` | src/components/DeliveryPersonForm.tsx:33-53 | an empty field gives only an error toast and keeps the form; otherwise `onSave` gets the record as entered, then a success toast, all four fields reset to '', `onClose` |
| `Login.IsIncomplete` | src/pages/Login.tsx:139 | the button's `disabled` condition (also the check at line 21) holds exactly when the e-mail or the password is falsy or no profile is chosen |
| `Login.Decide` | src/pages/Login.tsx:21-41 | rejected exactly when the button would be disabled; otherwise the route is the profile's dashboard |
| `Login.NoCredentialCheck` | src/pages/Login.tsx:30-41 | any non-empty e-mail and password with the same profile lead to the same route |
| `Login.RouteDeterminesProfile` | src/pages/Login.tsx:37-41 | with non-empty credentials, two profiles whose submit navigates to the same route are the same profile |
| `Login.Screen.constructor` | src/pages/Login.tsx:13-15 | empty e-mail and password, no profile |
| `Login.Screen.SetEmail` | src/pages/Login.tsx:68 | only the e-mail changes |
| `Login.Screen.SetPassword` | src/pages/Login.tsx:83 | only the password changes |
| `Login.Screen.SelectProfile` | src/pages/Login.tsx:94 | the profile clicked replaces any earlier choice; nothing else changes |
| `Login.Screen.HandleLogin` | src/pages/Login.tsx:18-42 | the navigation is the decision of `Decide` on the current fields; the toast is the error variant exactly when there is no navigation |

## Left out

- JSX rendering, dialogs and their `isOpen`/`onOpenChange`, tabs, icons and CSS classes are not modelled.
- Toast titles and descriptions are not modelled. A toast is its variant only: `destructive` for a rejection, the default one for a success. This also leaves out the `find` lookups in src/components/AssignmentForm.tsx:44-45, which only build the toast text.
- src/components/StatusBadge.tsx and src/components/MovementCard.tsx are pure presentation and are not part of this model.
- The clock read `new Date().toISOString()` is the parameter `now`.
- The navigation `window.location.href = …` is the returned route.
- The bodies of the `onSave`, `onAssign` and `onClose` props are written outside the modelled files. So the creation of a movement (status `pendente`, creation date, no assignee) and the recording of an assignment are not modelled. The model records only that each prop is called, and with what.
- React's batching of state updates and its re-renders are not modelled. Each setter is an immediate assignment.
- The mock data arrays are not modelled. Each screen's constructor takes its initial list as a parameter.
- The AssignmentForm preview of the selected movement (src/components/AssignmentForm.tsx:57) is display only and is not modelled.
- JsText.ToLower: maps only the ASCII letters A-Z. Unicode case mapping is not modelled, so `AdminDashboard.SearchIgnoresCase` holds for ASCII case only.
- AdminDashboard.MatchesSearch: its length bound (a term longer than both names matches nothing) rests on the ASCII lower-casing, which keeps lengths. JavaScript's `toLowerCase` can lengthen a string ("İ" becomes two code units), so in the browser a term longer than a name can still match it.
- Login.NoCredentialCheck: the browser's validation of the `type="email"` input (src/pages/Login.tsx:65) is not modelled. A non-empty but malformed e-mail such as "abc" is refused by the browser and never reaches `handleLogin`, so this lemma and `Login.Screen.HandleLogin` describe the handler only.
- ClientForm.Form.HandleSubmit: the browser's validation of the `type="email"` input (src/components/ClientForm.tsx:116) is not modelled. A non-empty malformed e-mail never reaches `handleSubmit`, so "`onSave` gets the record as entered" holds only for records the browser lets through.
- DeliveryPersonForm.Form.HandleSubmit: the browser's validation of the `type="email"` input (src/components/DeliveryPersonForm.tsx:92) is not modelled. A malformed e-mail never reaches `handleSubmit`, so "`onSave` gets the record as entered" holds only for records the browser lets through.
- JsText.Trim: works on Unicode scalar values, not UTF-16 code units. The set of characters it strips is ECMAScript's WhiteSpace and LineTerminator.
