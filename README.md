# Salon booking front end: the decision logic, in Dafny

The application is the front end of a salon's booking system. It has pages
for clients, services and appointments, plus a dashboard. Every row lives in
a remote store. This project models the logic those pages run between reading
and writing the store, and proves what that logic guarantees:

- **Booking an appointment** (`src/pages/Appointments.tsx`):
  - a booking needs a client, at least one service and a date;
  - its duration is the sum of the durations of the selected services, and its end time follows from that;
  - it writes one join row per selected service, each carrying the service's current price;
  - the appointment's join rows are replaced by deleting them all, then inserting the new ones;
  - the page also has a search filter, a dialog prefill, and quick-add dialogs that create a client or a service on the spot.
- **The services page** (`src/pages/Services.tsx`):
  - an ordered chain of checks decides what may be saved;
  - a name filter;
  - the minutes-to-Portuguese duration label;
  - the sanitiser of the price field;
  - the dialog's defaults.
- **The clients page** (`src/pages/Clients.tsx`): the required-name check, the name/phone search and the dialog prefill.
- **The dashboard** (`src/pages/Dashboard.tsx`):
  - the revenue sum;
  - the per-service tally of join rows (the `serviceMap` loop);
  - the ranking of that tally cut to the five most booked services;
  - the fallback of missing counts to 0.

The row types come from `src/lib/database.types.ts` (module `Schema`).

The store is the class `RemoteStore.Store`, with four `seq` tables. Every store
call the pages check takes the store's answer as a parameter, `accepted`.
When that answer is a refusal, the call changes nothing. The id the store
generates for a new row is also a parameter, `assignedId`. `Number(...)`
parsing is a parameter too: the text together with the value it yields,
where `None` stands for NaN. Times are integer milliseconds, and prices are
exact reals.

The handlers that change state are methods. Those of the appointments page
are methods of the class `AppointmentsPage`, since they update its fields.
The services and clients pages' save handlers (`Services.SaveService`,
`Clients.SaveClient`) are module-level methods that change only the store.
Each method's `ensures` gives the whole new state in terms of the old one. The pure
computations are functions, and lemmas prove the properties beside them:

- a permutation of the selection does not change the booking's duration;
- replacing an appointment's join rows leaves exactly the new rows, in order, touches no other appointment, and is idempotent;
- the duration label reads back to the minutes it was made from;
- the tally counts every row exactly once;
- the sort is stable;
- the cut keeps the largest entries.

Modules:

- `Common`: `Option`/`Result`, `filter`, ASCII lowercasing, `includes`, `join`;
- `Decimal`: integer ↔ decimal text;
- `Schema`;
- `RemoteStore`;
- `Appointments`, `Services`, `Clients` and `Dashboard`, one per page.

Where the code and its documentation differ, the model follows the code:

- The appointment search matches a client's phone case-sensitively and only when the phone is non-empty. The client, name and service checks are case-insensitive.
- The clients page writes the phone field's text as typed, so a blank phone is stored as the empty text, not as null. The quick-add dialog on the appointments page stores a blank phone as null.
- Editing an appointment uses `.single()` on the update, which is an error unless exactly one row has that id. The other updates treat "no row matched" as success.

## Model

| member | source | states |
|---|---|---|
| Appointments.AppointmentsPage.SaveAppointment | src/pages/Appointments.tsx:181-256 | An incomplete booking is refused with "Todos os campos são obrigatórios" and writes nothing. Otherwise the appointment row is updated (exactly one row with that id) or inserted, ending at start + total duration × 60000. Its join rows are then deleted and the rows built by `JoinRows` inserted. A refused write reports "Erro ao salvar agendamento": if the appointment write fails nothing changes; if the insert fails the appointment is left with no join rows. |
| Appointments.TotalDuration | src/pages/Appointments.tsx:191-194 | The sum of the selected services' durations is non-negative when no duration is negative, and 0 when no selected id names a service. |
| Appointments.TotalDurationConcat | src/pages/Appointments.tsx:191-194 | The duration of a concatenated selection is the sum of the durations of its parts. |
| Appointments.TotalDurationPermutation | src/pages/Appointments.tsx:191-194 | Any rearrangement of the selection has the same total duration. |
| Appointments.EndTime | src/pages/Appointments.tsx:196-197 | The end lies exactly the booking's whole minutes, at 60000 ms each, after the start: never before it for a non-negative total, always before it for a negative one. |
| Appointments.BookingEndTime | src/pages/Appointments.tsx:196-197 | With non-negative durations the end is never before the start; booking `a` then `b` back to back ends where booking `a + b` ends. |
| Appointments.BookingExample | src/pages/Appointments.tsx:191-197 | A 30-minute and a 45-minute service booked at 10:00 end 75 minutes later. |
| Appointments.JoinRows | src/pages/Appointments.tsx:238-242 | One row per selected id, in selection order, all under the appointment's id, each priced at the found service's current price, or 0 when no service has that id. |
| Appointments.SelectionOf | src/pages/Appointments.tsx:148 | One id per join row, and an id is shown exactly when some row refers to it. |
| Appointments.JoinRowsSelection | src/pages/Appointments.tsx:148 | Mapping the rows a save built back to their service ids gives exactly the saved selection, in selection order. |
| Appointments.SavedJoinRows | src/pages/Appointments.tsx:231-248 | After a save, the appointment's join rows in the table list exactly the selected ids, in insertion order; every other appointment's rows are unchanged; saving the same selection again leaves the table as it is. |
| Appointments.FilterAppointments | src/pages/Appointments.tsx:121-138 | An empty term gives the appointments unchanged. Otherwise the result is an order-preserving subsequence holding exactly the appointments that match: the client's name or the joined service names contain the term ignoring case, or the client's non-empty phone contains it as typed. |
| Appointments.AppointmentMatches | src/pages/Appointments.tsx:125-134 | An empty term finds every appointment; an appointment whose client is not found is found exactly when its joined service names contain the term, ignoring case. |
| Appointments.ServiceNameFindsAppointment | src/pages/Appointments.tsx:126-133 | An appointment is found by (a part of) the name of any one of its services, whatever the case. |
| Appointments.AppointmentsPage.OpenDialog | src/pages/Appointments.tsx:144-157 | Editing pre-fills client, selected service ids (in join-row order) and start date from the appointment; a new booking starts with no client, no services and the current time. |
| Appointments.AppointmentsPage.constructor | src/pages/Appointments.tsx:76-79 | The page starts with no appointment being edited, no client, no services and today's date. |
| Appointments.ValidateNewService | src/pages/Appointments.tsx:287-300 | "Todos os campos são obrigatórios" exactly when a field is empty; then "Preço inválido" exactly when the price is NaN or negative; otherwise "Duração inválida" unless the duration is a positive number; a pass carries the parsed name, price and duration. |
| Appointments.QuickAddAgreesWithServiceForm | src/pages/Appointments.tsx:287-300 | The dialog's checks and the services page's checks accept exactly the same inputs and build the same service; with all fields filled they give the same answer. |
| Appointments.AppointmentsPage.SaveNewService | src/pages/Appointments.tsx:286-323 | A failed check reports its message and changes nothing; an accepted insert appends the new service to the page's services and to the store, and its id to the end of the selection; a refused insert reports "Erro ao adicionar novo serviço" and changes nothing. |
| Appointments.QuickAddedServiceDuration | src/pages/Appointments.tsx:191-194 | Appending a new service and its id to the selection lengthens the booking by exactly that service's duration. |
| Appointments.AppointmentsPage.SaveNewClient | src/pages/Appointments.tsx:258-284 | An empty name is refused with "Nome é obrigatório"; an accepted insert stores the client (a blank phone as null), appends it to the page's clients and selects it; a refused insert reports "Erro ao adicionar novo cliente" and changes nothing. |
| RemoteStore.ReplacedLinks | src/pages/Appointments.tsx:231-248 | After delete-then-insert the appointment's rows in the table are exactly the inserted ones, in insertion order, and every other appointment keeps its rows. |
| RemoteStore.ReplaceIdempotent | src/pages/Appointments.tsx:231-248 | Replacing an appointment's rows twice with the same rows leaves the table as replacing once does. |
| RemoteStore.Store.ReplaceFor | src/pages/Appointments.tsx:231-248 | The delete always happens; the table afterwards is the replaced table when the insert is accepted, and the table without the appointment's rows when it is not. |
| RemoteStore.Store.InsertAppointment | src/pages/Appointments.tsx:214-229 | An accepted insert appends the row to the appointments table; a refused one changes nothing and reports the error. |
| RemoteStore.Store.DeleteLinksFor | src/pages/Appointments.tsx:231-235 | The delete removes every join row of the appointment and keeps all others, in order. |
| RemoteStore.Store.InsertLinks | src/pages/Appointments.tsx:244-248 | An accepted bulk insert appends the rows to the join table; a refused one changes nothing and reports the error. |
| RemoteStore.Store.InsertClient | src/pages/Clients.tsx:107-113 | An accepted insert appends the client; a refused one changes nothing and reports the error. |
| RemoteStore.Store.UpdateClient | src/pages/Clients.tsx:97-105 | An accepted update sets the name and phone of every client with the id, and of no other; a refused one changes nothing. |
| RemoteStore.Store.InsertService | src/pages/Services.tsx:127-139 | An accepted insert appends the service; a refused one changes nothing and reports the error. |
| RemoteStore.Store.UpdateService | src/pages/Services.tsx:118-126 | An accepted update sets the name, price and duration of every service with the id, and of no other; a refused one changes nothing. |
| RemoteStore.Store.UpdateAppointment | src/pages/Appointments.tsx:199-213 | The update succeeds only when accepted and exactly one row has the id, and then changes that row's client and times; otherwise nothing changes. |
| Schema.FindService | src/pages/Appointments.tsx:192 | The look-up returns a service with the id taken from the list, and returns nothing exactly when no service has the id. |
| Schema.FindServiceAppend | src/pages/Appointments.tsx:316 | Appending a service changes the look-up only for an id no earlier service has. |
| Services.ValidateService | src/pages/Services.tsx:99-112 | The checks stop at the first failure: "Nome é obrigatório" exactly when the name is empty; otherwise "Preço inválido" exactly when the price is empty, NaN or negative; otherwise "Duração inválida" exactly when the duration is empty, NaN or not positive; every form that passes the three checks is accepted, carrying its name, a price ≥ 0 and a duration > 0. |
| Services.ZeroPriceButNotZeroDuration | src/pages/Services.tsx:104-109 | A price of 0 passes; a duration of 0 or a negative price is refused. |
| Services.SaveService | src/pages/Services.tsx:98-148 | A failed check reports its message and writes nothing; otherwise the edited service is updated, or a new one inserted, with the parsed price and duration, and the success message matches; a refused write reports "Erro ao salvar serviço" and changes nothing. |
| Services.OpenServiceForm | src/pages/Services.tsx:79-92 | A new service gets an empty name and price and the duration "60"; editing copies the name, shows the price, and shows the duration as text that reads back as the stored duration. |
| Services.ReopenedDurationCheck | src/pages/Services.tsx:84 | Saving an opened service untouched fails the duration check exactly when its stored duration is not positive. |
| Services.FilterServices | src/pages/Services.tsx:158-160 | An order-preserving subsequence holding exactly the services whose lowercased name contains the lowercased term; all services for an empty term. |
| Common.FilterCount | src/pages/Services.tsx:158-160 | A filter keeps every copy of an element that passes and none of one that fails. |
| Services.FilterServicesIgnoresCase | src/pages/Services.tsx:158-160 | Lowercasing the term first changes nothing. |
| Services.FormatDurationShape | src/pages/Services.tsx:169-183 | Below 60 minutes the label is "<m> min"; otherwise hours = m div 60 ≥ 1 and 0 ≤ rest < 60 split m, and the label is "1 hora", "<h> horas", "1 hora e <rest> min" or "<h> horas e <rest> min". |
| Services.FormatDurationExamples | src/pages/Services.tsx:169-183 | 45, 60 and 120 minutes give "45 min", "1 hora" and "2 horas". |
| Services.FormatDurationMixedExamples | src/pages/Services.tsx:169-183 | 90 and 150 minutes give "1 hora e 30 min" and "2 horas e 30 min". |
| Services.FormatDurationRoundTrip | src/pages/Services.tsx:169-183 | Every label reads back to the minutes it was made from. |
| Services.FormatDurationInjective | src/pages/Services.tsx:169-183 | No two durations get the same label. |
| Services.SanitisePrice | src/pages/Services.tsx:296-301 | The result only has digits, '.' and ','; it is the input with every other character removed, in order, and the first ',' of that turned into '.'. |
| Services.DigitsAndDotsUnchanged | src/pages/Services.tsx:298-300 | Text of digits and dots passes through unchanged. |
| Services.LaterCommasSurvive | src/pages/Services.tsx:300 | Only the first comma becomes a dot; every later comma stays. |
| Decimal.IntRoundTrip | src/pages/Services.tsx:84 | The decimal text of an integer parses back to that integer. |
| Clients.OpenClientForm | src/pages/Clients.tsx:73-84 | Editing copies the name and shows a missing phone as the empty text; a new client gets empty fields. |
| Clients.SaveClient | src/pages/Clients.tsx:90-122 | An empty name is refused with "Nome é obrigatório" and nothing is written; otherwise the edited client's name and phone are updated, or a new client inserted, with the phone field's text; a refused write reports "Erro ao salvar cliente" and changes nothing. |
| Clients.ReopenedClientRow | src/pages/Clients.tsx:77 | Saving an opened client untouched keeps its id, name and creator, and writes a missing phone back as the empty text. |
| Clients.FilterClients | src/pages/Clients.tsx:132-135 | An order-preserving subsequence holding exactly the clients whose lowercased name contains the lowercased term or whose non-empty phone contains the term as typed; every client for an empty term. |
| Clients.NameSearchIgnoresCase | src/pages/Clients.tsx:133 | A client of the list whose name contains the term ignoring case is found, whether the term is typed in capitals or not. |
| Clients.BlankPhoneSearchesAlike | src/pages/Clients.tsx:134 | A missing and an empty phone never match, so a client without a phone is found by name alone. |
| Clients.PhoneSearch | src/pages/Clients.tsx:134 | A client of the list with a phone is found by any block of the phone's characters. |
| Clients.SearchExample | src/pages/Clients.tsx:132-135 | Searching "AN" in Ana (111) and Bia (222) finds Ana only. |
| Dashboard.Revenue | src/pages/Dashboard.tsx:94-98 | No rows read, or an empty list, gives 0; rows with non-negative prices give a non-negative total. |
| Dashboard.RevenueConcat | src/pages/Dashboard.tsx:98 | The revenue of concatenated row lists is the sum of their revenues. |
| Dashboard.RevenueSplit | src/pages/Dashboard.tsx:98 | The revenue is that of one appointment's rows plus that of all other rows. |
| Dashboard.RevenueAfterReplace | src/pages/Dashboard.tsx:98 | Re-saving an appointment changes the revenue by the new rows' prices minus the old rows' prices. |
| Dashboard.Label | src/pages/Dashboard.tsx:112 | A row is counted under its service's name, or under "Desconhecido" when the service or its name is missing; a label is never empty. |
| Dashboard.EmbeddedName | src/pages/Dashboard.tsx:101-108 | A join row embeds a service name exactly when a service with its service id exists. |
| Dashboard.StoreLabels | src/pages/Dashboard.tsx:101-112 | A join row read from the store is counted under its service's name when that service exists with a name, and under "Desconhecido" when the service is gone or has no name. |
| Dashboard.CountByName | src/pages/Dashboard.tsx:110-114 | The loop yields the labels in order of first appearance and the tally `CountsOf` of the labels. |
| Dashboard.CountsOfMeaning | src/pages/Dashboard.tsx:110-114 | The tally has a key exactly for each label that occurs, mapped to the number of rows carrying it (at least 1). |
| Dashboard.FirstOccurrencesMeaning | src/pages/Dashboard.tsx:110-116 | The keys, in insertion order, name each label once and only the labels that occur. |
| Dashboard.CountsAddUp | src/pages/Dashboard.tsx:110-116 | The counts of the keys add up to the number of rows. |
| Dashboard.Entries | src/pages/Dashboard.tsx:116-118 | One `{ name, value }` entry per key, in key order, carrying the key's count. |
| Dashboard.TallyEntries | src/pages/Dashboard.tsx:116-118 | Every entry is a label with the number of rows carrying it, no two entries share a name, and every label has an entry. |
| Dashboard.SortByValue | src/pages/Dashboard.tsx:119 | The sort is a permutation of the entries, largest value first. |
| Dashboard.SortKeepsTies | src/pages/Dashboard.tsx:119 | The sort is stable: entries of equal value keep their relative order. |
| Dashboard.PopularServices | src/pages/Dashboard.tsx:119 | At most five entries (all of them when fewer), largest value first, taken from the entries, each at least as large as every entry left out. |
| Dashboard.PopularityTable | src/pages/Dashboard.tsx:110-119 | The table has min(5, number of distinct labels) entries, sorted by value, each a distinct label with its exact row count; a label left out of the table has no more rows than any label in it. |
| Dashboard.DisplayStats | src/pages/Dashboard.tsx:132-137 | A count the store did not report is shown as 0, a reported one as itself; the revenue card shows `Revenue`. |
| Dashboard.StatsOfStore | src/pages/Dashboard.tsx:132-137 | With every read answered, the cards show the table sizes and the sum of all snapshot prices; with none answered, zeros. |

## Left out

- Network I/O: the store is modelled as four in-memory tables, with every answer the pages check passed in as `accepted`. Refetches after a save (`fetchData`, `fetchServices`, `fetchClients`) and the initial loads are not modelled.
- Concurrency: `Promise.all` and requests in flight are not modelled. The window between the appointment write and the join-row write is modelled only as a second step that can fail on its own.
- Appointments.SavedJoinRows, Appointments.JoinRowsSelection, RemoteStore.ReplacedLinks: the model's join table keeps rows in insertion order and reads an appointment's rows back in that order. The nested select at src/pages/Appointments.tsx:99 asks for no order, so the store itself promises only the same rows as a multiset. The dialog may then show the saved services in another order.
- Store.DeleteLinksFor: the page never checks the delete's result, so the model's delete always succeeds.
- `Number(...)` and `isNaN`: the parsed value is a parameter (`Option<real>` for prices, `Option<int>` for durations). A fractional duration is not modelled.
- `toLowerCase` is modelled on ASCII letters only. Unicode case mapping is not modelled.
- Dates: `new Date`, `toISOString` and time zones are not modelled. Times are integer milliseconds and the current time is a parameter. `formatCurrency` and the locale formatting of amounts and dates are not modelled either.
- Services.OpenServiceForm: `Number.prototype.toString` on the price is the parameter `showPrice`, so the model does not state what the price text looks like.
- Floating point: prices are exact reals, so rounding is not modelled and the order of the `reduce` does not matter.
- The `|| 0` fallbacks: `service?.duration || 0` and `?.price || 0` give 0 when no service has the id, which the model states through the `None` case of the look-up. Beyond that they only turn a NaN or a 0 into 0, and the model does not represent NaN; a stored price or duration of 0 gives 0 either way. `item.price || 0` on the dashboard is the price itself, since a stored join-row price is never null.
- `Map` insertion order is modelled by `FirstOccurrences`. `Array.prototype.sort` is modelled as a stable sort, as the language requires since ES2019.
- The dashboard's simulated monthly chart data (`Math.random`) and the upcoming-appointments query (`.gte`/`.order`/`.limit`) are not modelled.
- Login, routing and the authentication provider are not modelled: the signed-in user's id is a parameter. `src/pages/test.py` (a desktop file tool) is not part of this model.
- Presentation is not modelled: JSX, the dialogs' open/close flags, the spinners and the snackbar. The snackbar message is the `Result` a save returns; on the appointments page it is the `error` field.
- The columns the store fills and the pages never read are not modelled: `created_at`, the appointment's `status` and `notes`, and the join row's own `id`. The `profiles` table is not modelled either.
