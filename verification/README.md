# Store-scoped stock ledger of a scooter dealership

This project models the core of a Django application run by a scooter
dealership with several stores. At its centre is the stock ledger: the views
that change a part's `current_stock` and a scooter's status.

- **Stock transfers** take stock out of a source store and credit the
  destination store once the transfer is completed.
- **Supplier purchase invoices** receive stock, adjust it when an invoice
  changes, and take it back out (floored at zero) when items or whole
  invoices are removed.
- **Service job cards** consume parts when they are created and return them
  when they are deleted. They also move their scooter in and out of
  maintenance.

The database is a `Database` class (module `Records`). It holds one map per
table, from primary key to row, plus the auto-increment counter. Every view
is a method whose `modifies` clause names the tables it may touch. Its
`ensures` clauses give the new tables in terms of the old ones, so
"nothing else changes" is part of each contract.

Module `Ledger` captures the two ways the views write stock:

- **Save from a loaded copy.** A row read earlier in the request is written
  back with its stock moved. When the same part is saved several times, the
  last save wins.
- **Floored withdrawal from a fresh read.** Each withdrawal reads the row
  again and subtracts, stopping at zero, so withdrawals accumulate.

Each view's loop is proved against one of these two folds. The lemmas about
the folds state what the views promise together:

- deleting right after creating restores the stock;
- withdrawals never go below zero;
- with repeated parts, the last line wins.

Around the ledger sit the small rule sets:

- `Access`: per-user store visibility, full access and accessible stores,
  the middleware's allow/forbid decision, the template context, and the
  profile every new user receives.
- `Cart`: the session cart, an insertion-ordered dictionary updated in place.
- `Numbering`, `ServiceForms`, `RentalForms`: the `JC000001` / `R000001`
  number generators, the choice filtering of the forms, and the default
  rental dates (`Calendar` holds Python's date arithmetic and `strftime`).
- `Catalog`: sale price, image fallbacks and slug filling.
- `InventoryForms`: the purchase item description default and the minimum
  of one item.
- `PartsList`: the sort-field whitelist.
- `Export`: the report exporter's column resolver, row layout and width
  clamp, without the spreadsheet library.

Python's `int(str)` on ASCII text and `f'{n:06d}'` (both with CPython's default cap of 4300 digits), `split('.')` and
`strftime` are written out in `Common`, `Export` and `Calendar`.

Clocks, random draws and UUIDs are parameters: the transfer date and its four
random digits, the export time, the rental form's `now`, and a fresh cart id.
So are the choices the ORM makes: the order a query returns the items in,
and the last issued number.

## Model

| member | source | states |
|---|---|---|
| PartsList.SortField | inventory/views.py:138-148 | The ordering is always one of the six whitelisted fields, optionally preceded by `-`; an accepted request is used as it is, and anything else (or no parameter) falls back to `part_number` |
| PartsList.SortFieldStable | inventory/views.py:139-148 | Asking again for the ordering in use keeps it |
| Transfers.DigitTextValues | inventory/views.py:377 | The four random draws are rendered as four digit characters, each reading back as its draw |
| Transfers.DateStampFields | inventory/views.py:376 | The `%Y%m%d` stamp is eight digits whose fields read back as the year, month and day |
| Transfers.TransferNumberFormat | inventory/views.py:373-378 | The transfer number is 17 characters: `TRF-`, eight date digits reading back as the date, `-`, and four digits reading back as the draws |
| Transfers.StockTransferCreate | inventory/views.py:365-394 | A transfer is saved exactly when the part belongs to the source store and holds at least the quantity; the source part's stock then drops by exactly the quantity and no other part changes; otherwise no part, transfer or key changes |
| Transfers.CreditLands | inventory/views.py:414-446 | While the destination store has at most one part with that part number, the credit succeeds; the store then has exactly one, holding its previous stock plus the quantity (or only the quantity when the part was created), and every other part keeps its row |
| Transfers.StockTransferUpdate | inventory/views.py:400-450 | The destination is credited only when the old status is not `completed` and the new one is. An existing destination part gets the quantity added and its descriptive fields copied from the source; otherwise a part is created holding the quantity. The source part is untouched. Several matching parts raise and nothing is saved. Any other status change leaves the parts alone |
| Purchases.ReceiveItem | inventory/views.py:624-639 | One item: its part (when it has a part and a store, the purchase's store standing in for a missing one) is saved from its loaded row plus the quantity, and the item row is saved under the next key |
| Purchases.ReceiveItems | inventory/views.py:622-643 | The loop returns Σ quantity × unit price, leaves the part table as the save-from-copy fold over the restocks, and saves the items under consecutive keys |
| Purchases.SavedItemsAt | inventory/views.py:639 | Item k is stored under key first + k; no other key changes or appears |
| Purchases.ReceivedIsSaveCopies | inventory/views.py:633-636 | Receiving items one by one equals the ledger's save-from-copy fold over their restocks |
| Purchases.TotalOfCleaned | inventory/views.py:629-631 | Filling in descriptions leaves the invoice total unchanged |
| Purchases.TotalOfTwoLines | inventory/views.py:630-631 | Lines of 5 × 10 and 2 × 20 total 90 |
| Purchases.SaveItems | inventory/views.py:619-646 | A valid item set: the parts are restocked, the items are saved, and the purchase's total is the sum over its items |
| Purchases.PurchaseCreate | inventory/views.py:604-652 | The purchase is kept exactly when the item set is valid. It then has the recomputed total, every item with a part and a store (falling back to the purchase's store) adds its quantity to that part, and the items are saved. An invalid item set deletes the purchase again, so parts, purchases and items are as before |
| Purchases.OriginalItems | inventory/views.py:690 | The purchase's items are exactly the item rows that belong to it, unchanged |
| Purchases.SaveEdit | inventory/views.py:696-710 | A changed existing item moves its part by new minus old quantity (skipped when that is 0, never floored) and overwrites the item row, taking the part and item tables one step further along their folds |
| Purchases.SaveEdits | inventory/views.py:695-710 | The loop over changed items gives the save-from-copy fold over their quantity differences |
| Purchases.EditedIsSaveCopies | inventory/views.py:697-703 | Editing items one by one equals the save-from-copy fold over their moves |
| Purchases.WithdrawItem | inventory/views.py:713-722 | A deleted item takes its quantity off its freshly read part, floored at zero |
| Purchases.WithdrawItems | inventory/views.py:712-722 | The loop over removed items gives the ledger's floored withdrawal fold |
| Purchases.WithdrawnIsFloored | inventory/views.py:881-888 | Withdrawing items one by one equals the floored withdrawal fold |
| Purchases.PurchaseUpdate | inventory/views.py:677-728 | The header is saved first in every case. The items are processed exactly when the item set is valid. Changed items move stock by their difference and new items add their quantity; both are stored as `clean` left them, so an empty description is filled in as on creation. Deleted items (the purchase's own, each once, none of them also changed) subtract their quantity, floored at zero, and their rows are removed. An invalid item set changes no part or item |
| Purchases.RemoveItems | inventory/views.py:712-725 | The deleted forms take their quantities out of the stock under the floored withdrawal fold; their rows are then dropped and no other row changes |
| Purchases.SaveItemChanges | inventory/views.py:692-725 | On the cleaned forms: the part table is the save-from-copy fold over the changes and new items, followed by the floored withdrawals of the deleted items. The item table holds the changed rows, the new rows under consecutive keys, and not the deleted rows |
| Purchases.EditMovesOfCleaned | inventory/views.py:696-703 | Cleaning a changed item form leaves the stock change it causes as it was |
| Purchases.RestocksOfCleaned | inventory/views.py:704-707 | Cleaning new item forms leaves the parts they restock and the quantities as they were |
| Purchases.PurchaseDelete | inventory/views.py:875-892 | Every item with a part and a store takes its quantity off its part, floored at zero; then the purchase and its items are deleted, and nothing else changes |
| Purchases.StoredWithdrawals | inventory/views.py:881-884 | Withdrawing the stored items in their saved order names the same parts and quantities as receiving them did |
| Purchases.CreateThenDeleteRestores | inventory/views.py:881-888 | Deleting a purchase just created gives every part its stock back, when its items name different parts with non-negative quantities and no stock was negative |
| Purchases.RemovedStockFloors | inventory/views.py:884-888 | Removing items never drives a part below zero, and the part ends at its stock minus everything withdrawn from it, floored once at zero |
| Purchases.RepeatedPartKeepsLastSave | inventory/views.py:633-636 | Two items for one part each save the row loaded with their form, so only the second quantity lands: 10 + 3, not 10 + 5 + 3 |
| Ledger.SaveCopiesAt | inventory/views.py:635-636 | After saves from loaded copies, a part ends as its copy moved by the amount of the last move naming it; a part no move names keeps its row |
| Ledger.SaveDistinct | service/views.py:141-143 | When no part is saved twice, each part moves by exactly its own amount |
| Ledger.WithdrawFlooredAt | inventory/views.py:884-888 | Flooring step by step equals flooring once: with non-negative amounts a part ends at max(stock − total withdrawn, 0), with its other fields unchanged |
| Ledger.SaveThenWithdraw | inventory/views.py:884-888 | Adding amounts once per part and then withdrawing the same amounts restores the table, when nothing is negative |
| Ledger.SaveCopiesUndo | service/views.py:370-373 | Saving each part once and then saving the opposite amounts restores the table; no floor or cap is involved |
| Ledger.ApplySaves | service/views.py:141-143 | The loop over loaded part rows leaves the table as the save-from-copy fold |
| InventoryForms.CleanedDescription | inventory/forms.py:137-148 | The description is never empty, and a given description is kept |
| InventoryForms.CleanIdempotent | inventory/forms.py:142-148 | Cleaning twice equals cleaning once. A missing description becomes `<part name> - <part number>`, or `General Purchase Item` when there is no part |
| InventoryForms.PartChoices | inventory/forms.py:128-135 | The offered parts are the store's parts when a store is given, else all parts |
| InventoryForms.ChoicesByStore | inventory/forms.py:129-134 | A part is offered for its own store and for no other |
| InventoryForms.ValidItemsClean | inventory/forms.py:137-159 | A valid item set (at least one item, parts on offer) names existing parts; cleaning keeps every field except the description, keeps a given description and fills a missing one |
| JobCards.ScooterStatusOnCreate | service/views.py:99-106 | After creation the scooter is `available` exactly when the card is completed and the scooter was not retired, `maintenance` exactly when the card is not completed, and otherwise `retired`. The last maintenance date changes only for a completed card |
| JobCards.CompletionIdempotent | service/views.py:261-266 | Applying the completion rule twice equals applying it once |
| JobCards.CheckStock | service/views.py:122-137 | The check passes exactly when every line on its own is covered by its part's stock as loaded; quantities for the same part are not summed. It then yields one decrement per line |
| JobCards.CreateCardItems | service/views.py:146 | The item rows are created in order under consecutive keys |
| JobCards.CreateChecklist | service/views.py:149-159 | The checklist rows are created in order under consecutive keys |
| JobCards.ConsumeAndSeed | service/views.py:139-159 | Each line's part loses its quantity (saved from the loaded row), the items are saved, and the six checklist rows follow in the listed order |
| JobCards.OpenCard | service/views.py:108-112 | The scooter is saved with its new status, then the card takes the next key, and no item or checklist row refers to it yet |
| JobCards.UndoCard | service/views.py:169-173 | The compensation: the card is deleted, the scooter's status is set back, and no other row changes |
| JobCards.SaveItemsOrUndo | service/views.py:118-180 | The card is kept exactly when the item forms validate and every line is covered; then stock, items and checklist change as above. Otherwise no part changes, the card is deleted and the scooter's saved status is restored |
| JobCards.CreateForScooter | service/views.py:88-180 | The card's store defaults to the scooter's store, and the scooter takes its new status before the card is saved. The card is kept exactly when its items pass; otherwise the card is deleted, no stock changes, and the scooter's previous status comes back (a completion date it received stays) |
| JobCards.JobCardCreate | service/views.py:85-184 | A form whose scooter is not on offer changes nothing. Otherwise the card is kept exactly when its items pass. A kept card is saved under the next key with the defaulted store and the scooter's previous status; the scooter takes its new status, each line's part is saved from its loaded row less the line's quantity, and the items and checklist follow under consecutive keys. A card not kept leaves parts, cards, items and checklist as they were, and the scooter has its previous status back |
| JobCards.CreateKeepsStockNonNegative | service/views.py:130-143 | Since every line passed the check, no part ends below zero |
| JobCards.CreateTakesEachLine | service/views.py:139-143 | When no part is on two lines, each part drops by exactly its line's quantity, and parts on no line keep their rows |
| JobCards.RepeatedPartLastLineWins | service/views.py:125-143 | Two lines for one part (3 and 4 out of 5) both pass, and the part ends at 1 although 7 were used |
| JobCards.EditedCardItemsAt | service/views.py:258 | An item no form names keeps its row; an item ends as the last form naming it wrote it |
| JobCards.SaveCardEdit | service/views.py:258 | One existing item form overwrites its row and nothing else, which is one step of the item-table fold over the edits |
| JobCards.SaveCardEdits | service/views.py:258 | The loop over existing item forms gives the edited item table |
| JobCards.SaveCardItems | service/views.py:256-258 | The item forms are saved exactly when every changed or new form's part is on offer and every untouched, undeleted item of the card still names a part on offer. Then come the changed rows, then new items under consecutive keys, then the deletion of the card's items marked for it (none of them also changed). Untouched rows are not rewritten. Otherwise nothing changes |
| JobCards.UntouchedOutOfStockBlocksSave | service/forms.py:95-99 | An untouched item whose part has no stock left fails the item formset, even when no form was changed or added |
| JobCards.JobCardUpdate | service/views.py:250-270 | Part stock never changes. A valid form saves the card, keeping the saved previous status. The items are saved exactly when every changed or new form and every untouched item names a part on offer in the card's store. When its items are saved and the status is `completed`, the scooter becomes `available` unless retired and gets its last maintenance date |
| JobCards.JobCardDelete | service/views.py:361-401 | Each item's part is saved from the row loaded with that item, plus the item's quantity, with no floor or cap. So a part on one item gets its quantity back, while a part on several items ends as the last of them left it. The scooter becomes `available` only when no other card of it is pending, in progress or on hold, it is in maintenance, and its year is at least 2015; otherwise it is unchanged. The card, its items and its checklist are deleted |
| JobCards.DeleteRepeatedPartLastItemWins | service/views.py:367-373 | Items of 3 and of 4 on one part with 1 in stock: deleting the card leaves the part at 5, not 8 |
| JobCards.CreateThenDeleteRestoresStock | service/views.py:367-373 | Deleting a card just created returns exactly what it took: its items are the created rows, and returning them restores the part table |
| ServiceForms.ScooterChoices | service/forms.py:34-44 | A scooter is offered exactly when the card is not new or the scooter is not in maintenance, and a given store matches |
| ServiceForms.ScooterChoicesCases | service/forms.py:35-44 | An existing card may keep any scooter; a new card without a store may pick any scooter not in maintenance |
| ServiceForms.JobPartChoices | service/forms.py:94-99 | A part is offered exactly when its stock is above zero and a given store matches |
| ServiceForms.JobPartChoicesByStore | service/forms.py:95-99 | A store's choices are the unrestricted choices belonging to that store |
| ServiceForms.JobCardNumbers | service/forms.py:46-57 | After `JC` + n, a new card is offered `JC` + (n + 1) in six digits; with no card, a foreign prefix or an unparsable remainder it is offered `JC000001` |
| RentalForms.RentalScooterChoices | customers/forms.py:36-37 | A new rental offers exactly the available scooters; an existing one offers every scooter |
| RentalForms.RentalNumbers | customers/forms.py:36-51 | After `R` + n, a new rental is offered `R` + (n + 1) in six digits; otherwise `R000001`; an existing rental keeps its number |
| RentalForms.InitialDatesOneDayApart | customers/forms.py:53-57 | The start text reads back as `now` to the minute; the expected end reads back as the next calendar day at the same hour and minute |
| Numbering.Format06Shape | service/forms.py:53 | `{n:06d}` has at least six characters: digits for n ≥ 0, a minus sign first otherwise |
| Numbering.NextNumberShape | service/forms.py:49-57 | Every proposed number starts with the prefix and has at least six more characters |
| Numbering.ProposedNumberCases | service/forms.py:46-57 | Only a new record with no initial number gets a generated one; any other form keeps its initial value |
| Numbering.FirstIsOne | service/forms.py:55-57 | The first number in a sequence is `000001` |
| Numbering.NextAfter | service/forms.py:50-55 | A last number `prefix` + n in six digits is followed by `prefix` + (n + 1), as long as `int()` accepts the digits and the f-string can render n + 1; past either 4300-digit cap the `except ValueError` restarts the sequence at `000001` |
| Numbering.RenderCapRestarts | service/forms.py:51-55 | A last number that `int()` still reads but whose successor has more than 4300 digits (4300 nines) restarts the sequence at `000001`, because the f-string raises inside the same `try` |
| Numbering.NextOfParsed | service/forms.py:51-55 | Whatever the digits after the prefix parse to (n), the next number is `prefix` + `{n+1:06d}` when n + 1 has at most 4300 digits, and `prefix` + `000001` otherwise |
| Numbering.RestartAtOne | service/forms.py:54-57 | No previous number, a foreign prefix or an unparsable remainder restarts the sequence at 1 |
| Numbering.SixDigits | service/forms.py:53 | Below one million the rendering is exactly six digits |
| Common.PaddedDecimalValue | service/forms.py:53 | A zero-padded rendering is digits only and reads back as its number |
| Common.ParseDigits | service/forms.py:52 | `int()` of plain digit text is the text's decimal value when it has at most 4300 digits (CPython's default `sys.get_int_max_str_digits()`), and raises otherwise |
| Common.OverlongDigitsRaise | users/middleware.py:57 | 4301 nines make `int()` raise |
| Common.PowerBoundary | service/forms.py:52-53 | 10^k - 1 is written with k digits and 10^k with k + 1, so 4300 nines are the last number whose successor CPython can still read but not render |
| Common.ParsePaddedDecimal | service/forms.py:52-53 | `int()` reads any zero-padded rendering of n within the digit cap back as n; a longer rendering raises |
| Common.ParseSeparated | users/middleware.py:57 | `int()` strips the ASCII information separators 0x1C-0x1F like other white space: a space, `42` and 0x1C read as 42 |
| Calendar.NextDay | customers/forms.py:57 | The day after a valid date is a valid date, or an overflow after year 9999 |
| Calendar.NextDayIsOneDay | customers/forms.py:57 | Adding one day fails only on 9999-12-31; otherwise the day number grows by exactly one and the time of day is kept |
| Calendar.FormatWidths | customers/forms.py:55-57 | The `%Y-%m-%d`, `%Y-%m-%dT%H:%M` and `%Y-%m-%d %H:%M:%S` renderings are 10, 16 and 19 characters |
| Calendar.FormatMinuteRoundTrip | customers/forms.py:55 | The `%Y-%m-%dT%H:%M` text reads back as the same moment to the minute |
| Catalog.DisplayPrice | landing/models.py:73-79 | The display price never exceeds the price, is below it exactly when the product is on sale, and is either the price or the sale price |
| Catalog.ImageUrl | landing/models.py:81-93 | The image URL is never empty: `image_url` when given, else the stored image path, else the product placeholder |
| Catalog.StoredImage | landing/models.py:85-93 | The stored path when one is set, else the placeholder |
| Catalog.RentalImageUrl | landing/models.py:120-128 | The rental category's image is never empty: its stored path when set, else the rental placeholder |
| Catalog.ImageUrlSources | landing/models.py:81-93 | The image URL is one of the product's own values or the placeholder; with neither value set, it is the placeholder |
| Catalog.SlugOnSave | landing/models.py:16-19 | `save` keeps a set slug and fills an empty one from the name |
| Catalog.SlugStable | landing/models.py:65-68 | Saving any number of further times never changes the slug again |
| Catalog.Named.Save | landing/models.py:115-118 | The row's slug after `save` is its old slug when set, else the slugified name |
| Access.AccessibleStores | users/models.py:25-31 | With full access (superuser, or staff with no store) every store; otherwise the assigned store only; with no store and neither flag, none |
| Access.AssignedStoreOnly | users/models.py:21-30 | A non-superuser assigned to an existing store may work with exactly that store; a superuser with a store still gets every store |
| Access.RuleFor | users/utils.py:19-35 | A model with none of the four relations is not narrowed, and a direct `store` field takes priority |
| Access.Select | users/utils.py:19-35 | The kept records are exactly the input records the rule admits, and never more of them |
| Access.SelectCounts | users/utils.py:19-35 | Each record the rule admits is kept as often as it occurs; every other record is dropped |
| Access.SelectSnoc | users/utils.py:19-35 | The kept records keep their order: a record added at the end is appended to the selection exactly when the rule admits it |
| Access.FilterByUserStore | users/utils.py:3-39 | It raises exactly for a user who is neither superuser nor staff and has no profile. Every result is a subset of the input. Only a store-assigned non-superuser sees anything other than the input |
| Access.FilterForAssignedUser | users/utils.py:19-39 | A store-assigned user sees exactly the records whose first relation leads to their store, each as often as it occurs among the records; with a direct `store` field that alone decides; a model with no relation is passed through whole |
| Access.SelectEverything | users/utils.py:37-39 | A model without store relations is returned unchanged (fail-open) |
| Access.StorelessUserSeesEverything | users/utils.py:15-16 | Because of operator precedence, a plain user with no store sees every record, although they may work with no store |
| Access.StoreArgument | users/middleware.py:55 | The store id is the URL argument when it is non-empty, else the posted one |
| Access.ForbiddenExactly | users/middleware.py:13-65 | A request is forbidden exactly when it comes from an authenticated, store-assigned non-superuser, on a checked path and app, is not a GET, and names a numeric store id other than the user's store |
| Access.NotFoundExactly | users/middleware.py:15-31 | The middleware itself yields a 404 only for an authenticated non-superuser on a checked path that does not resolve |
| Access.NeverForbidden | users/middleware.py:47-65 | GET requests, requests naming the user's own store, and requests whose store id is not a number are never forbidden |
| Access.ProcessView | users/middleware.py:13-65 | The verdict is the decision above; a GET from a store-assigned user reaching that branch records the store's id on the request, and otherwise the request is unchanged |
| Access.UserStore | users/context_processors.py:6-32 | `is_store_limited` holds exactly when a store is reported. Unauthenticated users and superusers get none/False; an authenticated non-superuser with a profile gets the profile's store |
| Access.LimitedUsersAgree | users/context_processors.py:28-30 | A user shown as store-limited has no full access, may work with that store only, and sees only that store's records |
| Access.Accounts.CreateUserProfile | users/models.py:34-37 | A user just created gets a profile with no store; otherwise nothing changes |
| Access.Accounts.SaveUserProfile | users/models.py:39-44 | An existing profile is kept as it is; a user without one gets a blank one |
| Access.Accounts.UserSaved | users/models.py:33-44 | After the post-save signal every saved user has exactly one profile; a new user's is blank |
| Access.Accounts.CreateUser | users/models.py:33-37 | Creating a user adds one new user and a blank profile for it |
| Access.NewUserAccess | users/models.py:21-31 | A new user's profile has no store, so with neither flag they may work with no store, while staff alone already has full access |
| Cart.NewEntryAsWritten | cart/views.py:33-38 | As written, adding a product that has an image fails, and only products without an image can be added |
| Cart.AddWithImageFails | cart/views.py:37 | A product with the image path `/media/products/helmet.jpg` cannot be added to the cart |
| Cart.NewEntry | cart/views.py:33-38 | A new line has quantity 1, the product's price and name, and its image path or the placeholder; it agrees with the code whenever the code succeeds |
| Cart.AddedSpec | cart/views.py:28-38 | Adding raises the item count by exactly one. A product already in the cart gets only its own quantity increased by one; a new one is appended after all other lines. Ids stay distinct |
| Cart.RemovedSpec | cart/views.py:58-60 | Removing deletes exactly that product's line, taking its quantity and subtotal off the sums; the other lines keep their order; a missing id changes nothing |
| Cart.WithQuantitySpec | cart/views.py:71-73 | The quantity is set only for a positive value and a product in the cart, and no other line changes; otherwise the cart is unchanged |
| Cart.WithQuantityUpdate | cart/views.py:71-73 | Setting a quantity keeps the ids distinct |
| Cart.CartTotal | cart/views.py:84-86 | The loop's total is Σ price × quantity over the lines |
| Cart.Session.GetCartId | cart/views.py:7-11 | A cart id is created only when none exists, and repeated calls return the same id |
| Cart.Session.CartAdd | cart/views.py:19-51 | The cart becomes the added cart and the reported `cart_count` is the old count plus one; an unknown product changes nothing |
| Cart.Session.CartRemove | cart/views.py:53-63 | The cart becomes the cart without that product's line |
| Cart.Session.CartUpdate | cart/views.py:65-75 | The posted quantity (1 when absent) is applied as above; text `int()` rejects leaves the cart unchanged |
| Cart.Session.Checkout | cart/views.py:102-139 | An empty cart is left alone. Otherwise the total is Σ price × quantity, and a POST leaves the cart empty |
| Export.Split | utils/export_utils.py:95 | `split('.')` yields at least one piece, none containing a dot, and only one piece exactly when there is no dot |
| Export.SplitJoin | utils/export_utils.py:95 | Joining the pieces with dots gives the column name back |
| Export.Formatted | utils/export_utils.py:110-116 | Every written value is text or left as it is; text and other objects pass through unchanged |
| Export.DateTimeKeepsTime | utils/export_utils.py:111-114 | A datetime is written with its time of day (19 characters, starting with its date), never as a bare date |
| Export.MissingLink | utils/export_utils.py:96-102 | The first missing link of a dotted path gives None, whatever follows |
| Export.MissingAttributeIsEmpty | utils/export_utils.py:94-116 | A dotted column with a missing link, and a plain column the record lacks, both write the empty text |
| Export.ResolveCell | utils/export_utils.py:93-116 | The resolver loop yields the cell value the path-following definition gives |
| Export.HeaderRow | utils/export_utils.py:49-80 | Without a title the header is row 1; with one it is 1 + 2 + 1 + [store line] + number of info lines + 1 |
| Export.TitleBlock | utils/export_utils.py:52-78 | Title in row 1, a blank row 2, the date line in row 3, the store line in row 4 when given, then one row per info entry in order, and a blank row before the header |
| Export.WriteTitle | utils/export_utils.py:52-78 | With a title the rows are as in the title block, with `Export Date: ` and the time stamp on row 3; without a title nothing is written |
| Export.WriteInfo | utils/export_utils.py:72-76 | The info entries go to consecutive rows from the start row in order; earlier rows are kept |
| Export.InfoLine | utils/export_utils.py:74 | Each info entry is one text cell |
| Export.HeaderCells | utils/export_utils.py:81-86 | The header cells are the columns' display names in order |
| Export.RowCells | utils/export_utils.py:92-121 | A record's row holds one resolved value per column, in order |
| Export.WriteReport | utils/export_utils.py:49-123 | The header sits at the computed row and holds the display names; record p is on row header + 1 + p; above the header lie only the title rows (one cell each), with the title, the `Export Date: ` line, the store line and the info lines as the title block lays them out; nothing lies below the last record |
| Export.ColumnWidth | utils/export_utils.py:126-136 | The width is min(longest text + 2, 50): between 2 and 50, every text fits with two to spare unless the cap applies, and the width comes from an actual text or from the cap |

## Left out

- Rendering, redirects, `messages`, pagination, the JSON/AJAX endpoints and the `print` logging: these are framework plumbing.
- Header form validation (`PurchaseForm`, `StockTransferForm`, most of `JobCardForm`). The posted header is taken as valid. For job cards, only the scooter choice is checked.
- The item forms' `total_price` field, the job card's labour fields and its total-cost recalculation on the final `job_card.save()`. The `JobCard` model that computes these is not part of this model.
- Python floats (`float(product.price)` in the cart) and decimals are modelled as exact reals. Rounding to two places is not modelled.
- Database races between concurrent requests on the same part row are not modelled.
- The order of query results is an input rather than computed: `purchase.items.all()` and a job card's items are passed in (each item exactly once). The last issued job-card or rental number, which `order_by(...).first()` finds by text order, is also passed in.
- Django's `slugify` is a function parameter, and uniqueness of the `SlugField` (a second row with the same slug fails to save) is not modelled.
- `uuid.uuid4()`, `random.randint` and the clocks are parameters. So is the checkout's order id, which is otherwise left out.
- The openpyxl library is not modelled: styling, cell merging, the sheet name and building the response.
- Export.WriteTitle: does not model that merging the title cells over zero columns raises in `get_column_letter(0)`.
- Export.ColumnWidth: takes the texts of a column's cells as given. Which cells a column holds is not modelled, nor that an empty cell reads as the four characters `None`.
- Export.Formatted: a record (model object) is passed through. Writing it to a cell, which the spreadsheet library refuses, is not modelled. Attributes of values other than records (for example `date.year`) are not modelled.
- Cart.Session.CartAdd: uses the corrected entry (`Cart.NewEntry`, see Findings). A cart absent from the session reads as the empty cart.
- Access.Decide: the `store_id` URL argument is taken as text passed to `int()`, and Python's `int()` is modelled for ASCII text only: Unicode digits and non-ASCII white space are not modelled. The 4300-digit cap is CPython's default; a process that changes it with `sys.set_int_max_str_digits` is not modelled.
- Transfers.DateStamp: the date is limited to years 1000 to 9999, so `%Y` padding of earlier years is not modelled.
- The GET branches of the create and update views, which only offer choices, are left out.
- Numbering: the generators are stated for one issue (`Numbering.NextAfter`, `Numbering.RestartAtOne`). Issuing a run of numbers in a row is not modelled as a sequence.
- Rental pricing is left out: no code computes a price from the category rates.
- The parts list's store filter, and every other ORM query, are left out.
- `save_user_profile` re-saving an existing profile is modelled as no change; its `auto_now` timestamp is not modelled.

## Findings

| source | as written | input that shows it | evidently intended | confidence | as-written member | corrected member |
|---|---|---|---|---|---|---|
| cart/views.py:37 | `cart_add` reads `product.image.url`, but `image` is a text column holding a path. Adding any product that has an image raises `AttributeError` | a product whose `image` is `/media/products/helmet.jpg` | use the stored path as the image, as `Product.get_image_url` does (landing/models.py:85-90) | high (not executed) | Cart.NewEntryAsWritten | Cart.NewEntry |
