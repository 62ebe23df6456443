# Depovenok workshop bot — a Dafny model

Depovenok is a Telegram bot for a repair workshop. It keeps a register of electronic units
("блоки") that are received into stock, repaired and issued to machines (РА1/РА2/РА3). It also
takes 3D-print requests and registers the workshop's staff. Each workflow is a conversation:
the bot keeps a per-chat step and a dictionary of answers given so far, and writes rows
(units, unit events, repairs, attachments, print jobs, users, printers) to a SQL database.

This project models those workflows:

- **Fsm** (`fsm.dfy`): the conversation session, a class whose `step` and `data` fields the
  handlers update in place.
- **Db** (`db.dfy`): the database, a class holding one sequence per table. Every write is also
  given as a pure function on the `Tables` value. The invariant `Valid` says:
  - ids are 1..n;
  - Telegram ids and printer names are unique;
  - users are well-formed;
  - every unit's status is explained by its event history;
  - attachments and print events point at existing rows.
- **Receive**, **Issue**, **Repair**, **Printing**, **Registration**: one module per handler
  file. Every handler is a method whose `ensures` gives the new step, the new answers and the new
  tables exactly. Each database write is a pure commit function, with a lemma proving the
  invariant and the row-level facts.
- **ReceiveKeyboards** and **BlocksKeyboards**: the inline keyboards.
  - `choices_paged_kb` is a loop proved against a pure specification.
  - Lemmas show that every button's callback data decodes back to what the handlers expect.
- **Config**: settings, including the admin-id list that registration and approval consult.
- **Text**, **Ints**, **Order**, **Identity**, **Markup**, **Models**, **Common**: the pieces the
  handlers share.
  - **Text** covers `str.strip`, `str.split` and `str.lower`/`casefold`.
  - **Ints** covers Python's `int()` on text and `str()` on integers.
  - **Identity** covers who the sender is, and which name is written into an event.
  - **Markup** covers buttons and keyboards.
  - **Models** covers the rows and their column defaults.

Inputs the handlers take from outside are parameters:

- the Telegram sender (`from`);
- the clock (`now` for `datetime.now()`, `utc` for `datetime.utcnow()` and column defaults);
- the rendered date text (`closedText`, `format`);
- the Telegram file id of a sent photo;
- the admin id list;
- whether the registration module's session factory is bound (`bound`). As wired, it never is: see "## Left out".

## Model

| member | source | states |
|---|---|---|
| Models.UnitDefaults | app/db/models.py:71-84 | a new unit is `received`, and its condition, machine, machine number, acceptance time and surname are absent |
| Models.UserDefaults | app/db/models.py:12-21 | a new user is a `master` and `pending` |
| Models.RepairDefaults | app/db/models.py:35-44 | a new repair is `done` and has no closing time |
| Models.EventDefaults | app/db/models.py:47-58 | a new event has no destination, comment or author |
| Db.EmptyValid | app/db/models.py:12-84 | the empty database satisfies the invariant |
| Db.FreshIds | app/db/models.py:15 | the next autoincrement id is not used by any existing row of that table |
| Db.FindUser | app/handlers/receive.py:289 | the found row has the sender's tg_id; nothing is found exactly when no row has it |
| Db.FindUserUnique | app/db/models.py:16 | with unique tg_ids, looking up a stored user's tg_id finds that very row |
| Db.FindUnit | app/handlers/issue.py:197 | the found row has the id; nothing is found exactly when no row has it |
| Db.FindUnitById | app/db/models.py:74 | with ids 1..n, id k is row k-1 and any other id is absent |
| Db.FindPrinter | app/handlers/printing.py:90-92 | the found printer has the name; nothing is found exactly when no printer has it |
| Db.FindPrinterUnique | app/handlers/printing.py:216-221 | with unique names, a stored printer's name finds that printer |
| Db.WithNumber | app/handlers/issue.py:58 | keeps exactly the units whose number is the one asked for |
| Db.InsertByNameKind | app/handlers/issue.py:59 | inserting into the ordered list keeps every unit (multiset) |
| Db.InsertSorted | app/handlers/issue.py:59 | inserting into a list ordered by (name, type) keeps it ordered |
| Db.SortSorted | app/handlers/issue.py:59 | the sort orders by name, then type |
| Db.UnitsWithNumberSpec | app/handlers/issue.py:56-61 | the query result is ordered by (name, type), is a permutation of the matching units, and is empty exactly when no unit has that number |
| Db.DistinctNamesSpec | app/handlers/receive.py:67-69 | the name directory is strictly ascending (so distinct) and holds exactly the non-empty stored names |
| Db.DistinctKindsSpec | app/handlers/receive.py:133-135 | the type directory is strictly ascending and holds exactly the non-empty stored types |
| Db.AccountedAppend | app/handlers/receive.py:306 | appending any event keeps every unit's history explaining its status |
| Db.ReceiveKeepsValid | app/handlers/receive.py:283-307 | a `received` unit plus its `received` event keep the invariant |
| Db.SetUnitStatusKeepsValid | app/handlers/issue.py:202 | a status change backed by the matching event keeps the invariant |
| Db.AddAttachmentKeepsValid | app/handlers/repair.py:320-326 | an attachment of an existing repair keeps the invariant |
| Db.AddPrinterKeepsValid | app/handlers/printing.py:216-224 | a printer with a new name keeps names unique |
| Db.SetPrinterKeepsValid | app/handlers/printing.py:254-256 | changing a printer's status keeps the invariant |
| Db.AddUserKeepsValid | app/handlers/registration.py:70-72 | a well-formed user with a new tg_id keeps the invariant |
| Db.SetUserKeepsValid | app/handlers/registration.py:73-78 | rewriting a user in place, keeping id and tg_id, keeps the invariant |
| Db.Store.constructor | app/db/models.py:12-84 | a new database has no rows |
| Db.Store.InsertUnit | app/handlers/receive.py:283-284 | appends the unit and returns the next id |
| Db.Store.InsertEvent | app/handlers/receive.py:306-307 | appends the event and returns the next id |
| Db.Store.InsertRepair | app/handlers/repair.py:226 | appends the repair and returns the next id |
| Db.Store.InsertAttachment | app/handlers/repair.py:326-327 | appends the attachment and returns the next id |
| Db.Store.InsertPrintJob | app/handlers/printing.py:165-166 | appends the job and returns the next id |
| Db.Store.InsertPrintEvent | app/handlers/printing.py:174-175 | appends the print event and returns the next id |
| Db.Store.InsertPrinter | app/handlers/printing.py:223-224 | appends the printer and returns the next id |
| Db.Store.InsertUser | app/handlers/registration.py:71-72 | appends the user and returns the next id |
| Db.Store.UpdateUnitStatus | app/handlers/issue.py:202 | only that unit's status changes |
| Db.Store.UpdateUser | app/handlers/registration.py:74-78 | only that user row changes |
| Db.Store.UpdatePrinter | app/handlers/printing.py:254-256 | only that printer row changes |
| Fsm.GetStr | app/handlers/issue.py:219-220 | `data.get(key)` yields text exactly when the key holds text |
| Fsm.GetInt | app/handlers/issue.py:183-184 | yields an integer exactly when the key holds one (`isinstance(unit_id, int)`) |
| Fsm.PyStr | app/handlers/receive.py:273-275 | `str(value)`: text as itself, a missing key as `None` |
| Fsm.TruthyStr | app/handlers/receive.py:277-279 | `str(v) if v else None` is absent exactly when the value is falsy, and otherwise non-empty |
| Fsm.Session.constructor | app/handlers/receive.py:31-39 | a new chat has no step and no data |
| Fsm.Session.Clear | app/handlers/receive.py:322 | `state.clear()` removes step and data |
| Fsm.Session.SetStep | app/handlers/receive.py:46 | `set_state` changes the step and keeps the data |
| Fsm.Session.Update | app/handlers/receive.py:60 | `update_data` sets one key and keeps the step |
| Identity.TelegramName | app/handlers/receive.py:296-299 | `(last_name or first_name) or None`: the last name if set, else the first name, absent only when both are empty |
| Identity.Account | app/handlers/receive.py:288-291 | the sender's user row, whose tg_id is the sender's id |
| Identity.ActorId | app/handlers/receive.py:286-291 | `by_user_id` is present exactly when the sender is registered |
| Identity.DisplayName | app/handlers/repair.py:207-215 | the first word of the registered full name if there is one, else the Telegram name; never empty |
| Identity.ReceiveEventNameIsSurname | app/handlers/receive.py:250-263 | the name in the `received` event equals the surname stored on the unit |
| Identity.IssuerName | app/handlers/issue.py:206-216 | fails (IndexError from `split()[0]`) exactly when the registered full name is non-empty but blank |
| Identity.IssuerNameAgrees | app/handlers/issue.py:206-216 | when it does not fail, the issuer name is the same name the other handlers write |
| Identity.IssuerNameTotal | app/handlers/issue.py:210-211 | under the registration invariant (two-word names) it never fails |
| Text.OrDash | app/handlers/issue.py:64 | `x or '-'` is never empty and keeps a non-empty value |
| Text.Strip | app/handlers/receive.py:55 | `str.strip()` has no blank at either end and is empty exactly for blank text |
| Text.StripTrimmed | app/handlers/receive.py:55 | stripping stripped text changes nothing |
| Text.SplitWs | app/handlers/registration.py:48 | `str.split()` yields non-empty words and none at all exactly for blank text |
| Text.BlankIffNoTokens | app/handlers/registration.py:47-48 | text strips to empty exactly when it splits into no words |
| Text.SplitWsStrip | app/handlers/registration.py:47-48 | splitting the stripped text gives the same words |
| Text.SplitOn | app/handlers/receive.py:93 | `str.split(sep)` gives at least one part, and no part contains the separator |
| Text.LastPart | app/handlers/receive.py:199 | `split(sep)[-1]` holds no separator |
| Text.LastPartAfterSep | app/handlers/receive.py:213 | the last part after a separator is the text that followed it |
| Text.SplitOnFirst | app/handlers/repair.py:244 | splitting `a;rest` gives `a` followed by the parts of `rest` |
| Text.Lower | app/handlers/printing.py:50 | `str.lower()` maps each character and keeps the length |
| Ints.ParseInt | app/handlers/printing.py:105 | `int(text)` fails on blank text |
| Ints.ParseIntRoundTrip | app/handlers/receive.py:93 | `int(str(n)) == n` for every integer, so every page and index button decodes |
| Ints.ParseIntStrip | app/config.py:37-41 | `int` ignores surrounding blanks, so `int(part.strip()) == int(part)` |
| Ints.NatToStringValue | app/keyboards/receive.py:52 | the decimal digits written for n denote n |
| Order.StrictlySortedUnique | app/handlers/receive.py:67 | a strictly ascending list holds no value twice |
| Order.DistinctSortedBySet | app/handlers/receive.py:67 | two strictly ascending lists with the same elements are equal, so `distinct … order by` has one answer |
| Markup.RowData | app/keyboards/blocks.py:38-47 | the callback data of a row, button by button |
| Markup.WithIdDecodes | app/keyboards/blocks.py:19-25 | `f"{prefix}:{id}"` gives back the id as the part after the last colon |
| Markup.WithIdDiffers | app/keyboards/blocks.py:41-44 | different ids give different callback data |
| ReceiveKeyboards.StatusKb | app/keyboards/receive.py:8-16 | four one-button rows |
| ReceiveKeyboards.RaKb | app/keyboards/receive.py:19-27 | four one-button rows: three machines and skip |
| ReceiveKeyboards.SkipKb | app/keyboards/receive.py:30-33 | one button whose data is `recv:skip`, the data the skip handlers match |
| ReceiveKeyboards.ChoicesKb | app/keyboards/receive.py:36-40 | one button per value, with data `prefix:value`, then the manual-entry row |
| ReceiveKeyboards.ChoicesKbDecodes | app/keyboards/receive.py:37 | a value button's data ends with that value |
| ReceiveKeyboards.ChoicesPagedKb | app/keyboards/receive.py:43-64 | the loop builds exactly the specified paged keyboard |
| ReceiveKeyboards.PagedNavRow | app/keyboards/receive.py:54-59 | the navigation row built button by button is exactly back arrow (when the page does not start at 0), indicator, forward arrow (when values follow) |
| ReceiveKeyboards.PagedKbShape | app/keyboards/receive.py:43-64 | at most a page of item buttons (value `idx`, data `prefix:idx:idx`), then the navigation row, then manual entry |
| ReceiveKeyboards.ItemButtonDecodes | app/keyboards/receive.py:50-52 | an item button's index is in range and names the value shown on it |
| ReceiveKeyboards.PageOfStart | app/keyboards/receive.py:45-47 | the normalised page is `max(page, 0)` |
| ReceiveKeyboards.NavButtons | app/keyboards/receive.py:54-61 | a back arrow exactly when the page does not start at 0, a forward arrow exactly when items remain, always the indicator |
| ReceiveKeyboards.NextPageContinues | app/keyboards/receive.py:59 | the next page starts where this one ended |
| ReceiveKeyboards.NegativePageIsFirst | app/keyboards/receive.py:45 | a negative page shows the first page |
| ReceiveKeyboards.PastEndPageIsEmpty | app/keyboards/receive.py:45-59 | a page past the end has no items and no forward arrow |
| ReceiveKeyboards.PageCountIsCeiling | app/keyboards/receive.py:57 | `(total-1)//size+1` is the ceiling of total/size, and 0 for no values |
| ReceiveKeyboards.LastCountedPageHasItems | app/keyboards/receive.py:57 | the last counted page has items and the one after it has none |
| ReceiveKeyboards.PageButtonTurns | app/handlers/receive.py:92-95 | the page handler reads back the page a navigation button carries |
| ReceiveKeyboards.ItemButtonPicks | app/handlers/receive.py:104-106 | picking an item button selects the value shown on it |
| ReceiveKeyboards.ItemButtonPicksBeside | app/handlers/issue.py:96-97 | with ids stored beside labels, an item button picks the id stored with its label |
| BlocksKeyboards.BlocksMenuKb | app/keyboards/blocks.py:4-12 | four one-button rows |
| BlocksKeyboards.MenuOpensFlows | app/keyboards/blocks.py:7-9 | the first three buttons carry the triggers the receive, issue and repair flows start on |
| BlocksKeyboards.TriggersDiffer | app/keyboards/blocks.py:7-9 | the three flow triggers and the back-to-menu callback are pairwise different |
| BlocksKeyboards.BackToBlocksKb | app/keyboards/blocks.py:30-35 | one button leading to `blocks:menu` |
| BlocksKeyboards.ExportMenuKb | app/keyboards/blocks.py:50-57 | three one-button rows, the last one leading back to the menu |
| BlocksKeyboards.UnitCardKb | app/keyboards/blocks.py:15-27 | four rows, the last holding the set/clear machine pair |
| BlocksKeyboards.UnitCardCarriesId | app/keyboards/blocks.py:19-25 | every card button gives back the unit id after its last colon |
| BlocksKeyboards.RepairButtonDecodes | app/keyboards/blocks.py:21 | the repair button starts with `unit:repair:`, so the card handler catches it, and decodes to the unit |
| BlocksKeyboards.HistoryNavButtons | app/keyboards/blocks.py:38-47 | back arrow iff `has_prev`, forward arrow iff `has_next`, to the neighbouring pages; label always present; back-to-menu row |
| Config.EntryIds | app/config.py:37-43 | one entry yields at most one id |
| Config.EntryIdsParse | app/config.py:37-43 | an entry yields its integer, or nothing when `int()` fails (`except ValueError: pass`) |
| Config.AdminIdsStep | app/config.py:36-43 | each loop pass appends that entry's id |
| Config.ParseAdminIds | app/config.py:33-43 | the loop's result is the ids of the comma-separated parts, in order |
| Config.GetSettings | app/config.py:28-44 | fails exactly when the token is unset or empty; otherwise carries the token and the parsed admin ids |
| Config.AdminIdsAppend | app/config.py:36 | the admin ids of joined lists are the joined ids |
| Config.AdminIdsMembers | app/config.py:36-43 | an id is an admin exactly when some part parses to it |
| Config.NoAdminsWhenUnset | app/config.py:33-35 | an unset variable gives no admins |
| Config.AdminIdsBound | app/config.py:36-43 | there are never more admin ids than parts |
| Receive.ConditionLabel | app/handlers/receive.py:199-201 | each of the four tokens maps to its label, and any other token is kept as it is |
| Receive.StatusKbStoresCaption | app/handlers/receive.py:199-201 | the condition stored for each status button is the caption that button shows |
| Receive.MachineValue | app/handlers/receive.py:213-217 | the stored machine is `None` exactly for `skip` |
| Receive.RaKbStoresMachine | app/handlers/receive.py:213-217 | the RA buttons store RA1, RA2, RA3, and skip stores `None` |
| Receive.ReceiveCommitSpec | app/handlers/receive.py:271-307 | exactly one new unit: fresh id, `received`, accepted now, optional columns absent exactly when the answer was falsy, surname from the sender; exactly one `received` event for it naming the same person; nothing else changes; invariant kept |
| Receive.StartReceive | app/handlers/receive.py:43-46 | clears the session and asks for the number |
| Receive.SetNumber | app/handlers/receive.py:54-77 | a blank number changes nothing; otherwise the number is stored and the name step offers the stored names, or manual entry when there are none |
| Receive.NameManualSwitch | app/handlers/receive.py:81-83 | switches to manual name entry |
| Receive.NamePage | app/handlers/receive.py:88-96 | shows the page the button names (0 when unparsable) |
| Receive.ProceedToType | app/handlers/receive.py:125-143 | offers the stored types when there are any, else manual type entry |
| Receive.NamePick | app/handlers/receive.py:100-112 | a bad index falls back to manual entry; a good one stores that name and proceeds to the type |
| Receive.SetNameManual | app/handlers/receive.py:116-122 | a blank name changes nothing; otherwise it is stored and the flow proceeds to the type |
| Receive.TypeManualSwitch | app/handlers/receive.py:147-149 | switches to manual type entry |
| Receive.TypePage | app/handlers/receive.py:154-162 | shows the page the button names |
| Receive.TypePick | app/handlers/receive.py:166-178 | a bad index falls back to manual entry; a good one stores that type and asks for the condition |
| Receive.SetTypeManual | app/handlers/receive.py:182-188 | a blank type changes nothing; otherwise it is stored and the condition is asked |
| Receive.SetCondition | app/handlers/receive.py:197-202 | stores the condition label and asks for the machine |
| Receive.SetMachine | app/handlers/receive.py:211-218 | stores the machine (`None` for skip) and asks for its number |
| Receive.SkipMachineNumberAsWritten | app/handlers/receive.py:227-230 | as written: the machine number is cleared, then the handler fails; nothing is saved and the step stays |
| Receive.SkipMachineNumber | app/handlers/receive.py:227-230 | corrected: skipping finishes the reception with no machine number |
| Receive.SetMachineNumber | app/handlers/receive.py:234-237 | stores the stripped number and finishes: the reception commit, then a cleared session |
| Receive.FinishReceive | app/handlers/receive.py:239-322 | the tables become the reception commit of the answers; the session is cleared |
| Issue.LabelsOf | app/handlers/issue.py:62-65 | one `name \| type \| status` label per unit, in order |
| Issue.NamesOf | app/handlers/issue.py:65 | one name (or `-`) per unit, in order |
| Issue.PickMatchesLabel | app/handlers/issue.py:72-74 | an item button picks the id of the unit whose label it shows |
| Issue.RefusalNamesStatus | app/handlers/issue.py:113-116 | the refusal quotes the unit's status back from its label |
| Issue.RefusalNamesStoredStatus | app/handlers/issue.py:113-116 | for every stored unit the refusal names its actual status |
| Issue.IssueCommitSpec | app/handlers/issue.py:202-231 | only the unit becomes `issued`; exactly one `issued` event for it, with the issuer and the destination from the session; invariant kept |
| Issue.StartIssue | app/handlers/issue.py:38-42 | clears the session and asks for the number |
| Issue.SetNumber | app/handlers/issue.py:46-74 | a blank or unknown number changes nothing; otherwise the ids, labels and names of the matching units (ordered by name, type) are stored and the first page shown |
| Issue.UnitPage | app/handlers/issue.py:78-86 | shows the page the button names |
| Issue.UnitPick | app/handlers/issue.py:90-123 | a bad index returns to the number; a `done` unit is chosen and the destination asked; any other unit is refused with its status and the session cleared |
| Issue.IssueSetMachine | app/handlers/issue.py:127-136 | stores the destination (`None` for skip) and asks for its number |
| Issue.IssueSkipMachineNumber | app/handlers/issue.py:140-143 | no destination number; asks to confirm |
| Issue.IssueSetMachineNumber | app/handlers/issue.py:147-151 | stores the stripped number; asks to confirm |
| Issue.IssueCancel | app/handlers/issue.py:174-176 | clears the session and writes nothing |
| Issue.IssueConfirmYes | app/handlers/issue.py:180-253 | no unit: nothing written, session cleared; a blank registered name: the handler fails and nothing changes; otherwise the issue commit and a cleared session |
| Repair.LabelsOf | app/handlers/repair.py:66-69 | one `name \| type` label per unit, in order |
| Repair.PickMatchesLabel | app/handlers/repair.py:76-78 | an item button picks the id of the unit whose label it shows |
| Repair.OpenCommitSpec | app/handlers/repair.py:110-131 | exactly one `repair_open` event for the unit, by the sender; units untouched; invariant kept |
| Repair.RepairNote | app/handlers/repair.py:223-237 | absent exactly when there is neither fault nor summary; starts with the fault when there is one; ends with the summary |
| Repair.CloseCommitSpec | app/handlers/repair.py:217-240 | one `done` repair opened and closed now with the note; one `repair_close` event with the same note; the unit, if it exists, becomes `done`; invariant kept |
| Repair.QrPayloadSplits | app/handlers/repair.py:244 | the QR payload splits back into number, name and closing time |
| Repair.QrFileNameInjective | app/handlers/repair.py:307 | different repairs get different QR file names |
| Repair.AttachQrSpec | app/handlers/repair.py:317-327 | one attachment of that repair, with the photo's file id and the QR file name; invariant kept |
| Repair.StartRepair | app/handlers/repair.py:42-46 | clears the session and asks for the number |
| Repair.SetNumber | app/handlers/repair.py:50-78 | a blank or unknown number changes nothing; otherwise ids and labels are stored and the first page shown |
| Repair.UnitPage | app/handlers/repair.py:82-91 | shows the page the button names |
| Repair.UnitPick | app/handlers/repair.py:95-135 | a bad index returns to the number; otherwise the unit is stored, a `repair_open` event written and the fault asked |
| Repair.OpenRepair | app/handlers/repair.py:110-131 | writes the opening commit |
| Repair.StartFromCard | app/handlers/repair.py:142-178 | an unparsable id changes nothing; otherwise a fresh session holding only the unit, the opening event, and the fault step |
| Repair.CardButtonOpensUnit | app/handlers/repair.py:146 | the card's repair button opens the repair of that card's unit |
| Repair.SetFault | app/handlers/repair.py:182-186 | stores the stripped fault and asks for the summary |
| Repair.CloseRepair | app/handlers/repair.py:217-327 | the closing commit; when the unit exists, also the QR attachment and the payload |
| Repair.FinishRepair | app/handlers/repair.py:190-330 | no unit id (or 0) or no sender: nothing written; otherwise the closing commit, plus the QR attachment and payload when the unit exists; always a cleared session |
| Printing.LowerIdempotent | app/handlers/printing.py:50 | lower-casing twice is lower-casing once |
| Printing.AllowedIgnoresCase | app/handlers/printing.py:50-51 | a file name is allowed exactly when its lower-case form is |
| Printing.AllowedExtensions | app/handlers/printing.py:51 | `.stl`, `.STL`, `.3mf`, `.3MF` files are allowed |
| Printing.RefusedModels | app/handlers/printing.py:48-49 | no name, an empty name and an `.obj` file are refused |
| Printing.MaintenanceUntil | app/handlers/printing.py:90-94 | a warning time exists only for a printer of that name under maintenance, and lies in the future |
| Printing.PromptLostAsWritten | app/handlers/printing.py:98 | as written, a reply with a warning does not end with the time prompt |
| Printing.PrinterReplyPrompts | app/handlers/printing.py:98 | corrected: the reply always ends with the time prompt, starts with the warning when there is one, and matches the source when there is none |
| Printing.PositiveMinutes | app/handlers/printing.py:103-110 | accepted exactly when `int()` succeeds with a positive value |
| Printing.PositiveMinutesDecimal | app/handlers/printing.py:105-107 | any positive decimal is accepted as itself; zero and negatives are refused |
| Printing.PrintCommitSpec | app/handlers/printing.py:149-176 | one `requested` job with the session's printer, file, photo and minutes, by the sender; one `requested` event for it with the summary comment; invariant kept |
| Printing.CommandRestOfName | app/handlers/printing.py:208-212 | `/add_printer <name>` yields the name |
| Printing.AddPrinterIdempotent | app/handlers/printing.py:207-225 | a missing name or an existing printer changes nothing; otherwise exactly one printer with that name is added; repeating the command adds nothing; invariant kept |
| Printing.AddNamedIdempotent | app/handlers/printing.py:213-224 | for an already-read name: empty or taken changes nothing, otherwise exactly that printer is appended; a second attempt with the same name is refused and changes nothing |
| Printing.MaintArgs | app/handlers/printing.py:231-242 | accepted minutes are positive |
| Printing.MaintArgsOfCommand | app/handlers/printing.py:231-237 | `/maint <name> <m>` yields the name and m |
| Printing.MaintThenWarns | app/handlers/printing.py:254-256 | after `/maint`, the printer step warns for that printer exactly until the end time; only that printer changed |
| Printing.MaintResultSpec | app/handlers/printing.py:229-261 | refused or unknown printer: nothing changes; success: the named printer warns until now plus the minutes |
| Printing.StartPrint | app/handlers/printing.py:39-41 | clears the session and asks for the file |
| Printing.GotModelFile | app/handlers/printing.py:55-61 | a refused file changes nothing; an allowed one stores id and name and asks for a photo |
| Printing.GotPhoto | app/handlers/printing.py:66-70 | stores the largest photo size and asks for the printer |
| Printing.SkipPhoto | app/handlers/printing.py:74-77 | handled exactly for `пропустить` in any case; stores no photo |
| Printing.SkipCapitalised | app/handlers/printing.py:74 | `Пропустить` also skips |
| Printing.SetPrinterName | app/handlers/printing.py:82-98 | stores the stripped printer name, moves to the time step and gives the reply as written: the warning alone when the printer is under maintenance, the time prompt otherwise |
| Printing.SetPrinterNameCorrected | app/handlers/printing.py:82-98 | the same state change, with the evidently intended reply: the warning line, if any, then the time prompt |
| Printing.SetTime | app/handlers/printing.py:102-122 | accepted exactly for positive minutes, which are stored before confirming; otherwise nothing changes |
| Printing.PrintCancel | app/handlers/printing.py:126-128 | clears the session and writes nothing |
| Printing.PrintConfirmYes | app/handlers/printing.py:132-181 | no model file: nothing written; otherwise the job commit, returning the new job id; always a cleared session |
| Printing.CommitPrint | app/handlers/printing.py:149-177 | the two inserts leave exactly the job commit's tables, keep the invariant and return the id the job received |
| Printing.AddPrinterCommand | app/handlers/printing.py:207-225 | performs exactly the `/add_printer` result |
| Printing.MaintCommand | app/handlers/printing.py:229-261 | performs exactly the `/maint` result |
| Printing.ApplyMaint | app/handlers/printing.py:243-257 | with the arguments read: a refusal or an unknown printer leaves the tables alone, otherwise exactly that printer's maintenance is written; the invariant holds |
| Printing.StartMaintenance | app/handlers/printing.py:254-256 | writes the maintenance state of one printer |
| Registration.RoleFor | app/handlers/registration.py:56 | `admin` exactly for ids in the admin list, otherwise `master` |
| Registration.ReregisteredAgain | app/handlers/registration.py:74-78 | re-registering with the same answers changes nothing more |
| Registration.UpsertKeepsValid | app/handlers/registration.py:65-79 | the upsert keeps the invariant and touches only users |
| Registration.UpsertNewUser | app/handlers/registration.py:70-72 | an unknown sender gets one new row with the name, username, and admin role and active status exactly for admin ids |
| Registration.UpsertKnownUser | app/handlers/registration.py:73-78 | a known sender's row keeps id and creation time, takes the new name and username, never loses admin, and becomes active when an admin |
| Registration.UpsertUniqueTgIds | app/handlers/registration.py:68-72 | the upsert never creates a second row for a tg_id |
| Registration.UpsertIdempotent | app/handlers/registration.py:65-79 | registering twice with the same answers leaves the table as after the first time |
| Registration.Register | app/handlers/registration.py:21-38 | no sender: nothing changes; a bound session factory: the lookup fails and nothing changes; otherwise the full name is asked |
| Registration.SetFullName | app/handlers/registration.py:42-86 | no sender or fewer than two words: nothing changes; unbound: session cleared, nothing written; otherwise the upsert of the stripped name and a cleared session |
| Registration.SaveUser | app/handlers/registration.py:65-79 | writes the upsert |
| Registration.ApproveSpec | app/handlers/registration.py:90-125 | only an admin with a bound session changes anything; an approval makes exactly the named user active; approving again changes nothing |
| Registration.Approve | app/handlers/registration.py:90-125 | performs exactly the `/approve` result |

## Left out

- Telegram transport is not modelled: routing by filters, `callback.answer`, message sending and editing, and reply keyboards. Reply texts are modelled only where the source's logic depends on them: refusal, printer reply, and outcome codes.
- The SQLAlchemy engine, sessions and `ensure_db` are not modelled. The flow handlers read `db_base.async_session` when they run, after `setup_engine`, so they always see a database.
- Registration takes the flag `bound` instead. `app/handlers/registration.py:9` copies `async_session` by name when the module is imported. That happens through `app/main.py:13`, before `setup_engine` runs at `app/main.py:24`. So in the running program `bound` is always false: `/register` never writes a user and `/approve` always answers that the database is not initialised. The model keeps `bound` as a parameter so that both cases are stated; `Registration.SetFullName` and `Registration.ApproveSpec` say what happens when it is false.
- QR imaging is not modelled: `qrcode`, Pillow, font search, PNG writing and sending the photo. The model keeps the payload text, the file name and the Attachment row. The Telegram file id of the sent photo is a parameter.
- Date rendering with `strftime` is not modelled; `closedText` and `format` are parameters. `datetime.now()` and `datetime.utcnow()` are the instants `now` and `utc`. The two `now()` calls in `finish_repair` are taken as one instant.
- The separate commits inside one handler are not modelled as separate windows, and neither are concurrent chats. Each handler's writes are one step.
- `files.py` is not modelled. Its document handler (`app/handlers/files.py:17`) and photo handler (`app/handlers/files.py:44`) have no state filter, and their router is included at `app/handlers/__init__.py:19`, before the print flow's at `app/handlers/__init__.py:25`. So as wired every document and every photo is consumed there, and `got_model_file` and `got_photo` are never reached. `Printing.GotModelFile` and `Printing.GotPhoto` model those two handlers as if routing reached them.
- The `documents` table is not modelled: only `files.py` writes it.
- Python `int()` is modelled for ASCII digits, an optional sign, single underscores and surrounding blanks; other Unicode digits are not accepted.
- `lower()` and `casefold()` are modelled for ASCII and basic Cyrillic only.
- `str()` of a list is not modelled. Reception requires the answers to hold text, numbers or `None` (`ReceiveShaped`).
- A session value of an unexpected shape is read as absent, for example a non-text `model_file_id`.
- Ties in `ORDER BY name, type` follow insertion (id) order.
- `PrintJob`, `PrintEvent` and `Printer` are not defined in `app/db/models.py`. They are defined from the constructor calls in `app/handlers/printing.py`. A new printer's status is `None`, standing for the unknown column default.
- `list_printers`, the `ask_issue_confirm` prompt and the `set_time` summary only render text. They are not modelled.
- Machine reassignment, history listing and XML export have no handlers in the modelled files. Only their button data is modelled.
- Printing.MaintCommand, Printing.MaintResultSpec, Printing.ApplyMaint: `utc` plus the minutes is unbounded here. In the source, `datetime.utcnow() + timedelta(minutes=mins)` (`app/handlers/printing.py:243`) lies outside the `try` and raises `OverflowError` past the year 9999; then nothing is written and no reply is sent. The model instead writes that far instant.
- Printing.PrintConfirmYes, Printing.CommitPrint, Printing.PrintCommitSpec: the minutes are unbounded here. SQLite stores 64-bit integers, so a job whose `expected_time_min` exceeds 2^63-1 fails at the commit (`app/handlers/printing.py:156-166`); then no job or event is written, the session is not cleared and no reply is sent. The model instead writes the job.
- Registration.Approve, Registration.ApproveSpec: the target id is unbounded here. With a bound session, an id outside the 64-bit range makes the lookup (`app/handlers/registration.py:117`) raise, and nothing changes and no reply is sent. The model instead looks that id up like any other. As wired, the session is never bound, so this path is not reached.
- Printing.GotPhoto: requires at least one photo size. Telegram always sends one for a photo message, and the handler's filter guarantees a photo.

## Findings

| source | as written | input that shows it | evidently intended | confidence | as-written member | corrected member |
|---|---|---|---|---|---|---|
| app/handlers/printing.py:98 | `(warn + "\n") if warn else "" + "Укажите…"` parses as `(warn + "\n") if warn else ("" + "Укажите…")` | a printer under maintenance: the reply is the warning alone, with no time prompt | the warning, then the prompt for the print time | high (not executed) | Printing.SetPrinterName, Printing.PromptLostAsWritten | Printing.SetPrinterNameCorrected, Printing.PrinterReplyPrompts |
| app/handlers/receive.py:230 | `skip_machine_number` calls `ask_accepted_at`, which is defined nowhere | pressing "skip" at the machine-number step raises `NameError`; the unit is never saved | finish the reception with no machine number, as `set_machine_number` does | high (not executed) | Receive.SkipMachineNumberAsWritten | Receive.SkipMachineNumber |
