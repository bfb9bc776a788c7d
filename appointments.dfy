/** The booking page (src/pages/Appointments.tsx): the checks a booking must
    pass, its total duration and end time, the join rows that snapshot each
    service's price, the search filter, the quick-add dialogs, and the page
    state those handlers change. */
module Appointments {
  import opened Common
  import opened Schema
  import opened RemoteStore
  import Services

  const RequiredFields := "Todos os campos são obrigatórios"
  const SaveFailed := "Erro ao salvar agendamento"
  const NameRequired := "Nome é obrigatório"
  const ClientSaveFailed := "Erro ao adicionar novo cliente"
  const InvalidPrice := "Preço inválido"
  const InvalidDuration := "Duração inválida"
  const ServiceSaveFailed := "Erro ao adicionar novo serviço"

  const MillisPerMinute := 60000

  /** An appointment as the page fetches it: its row and its service rows. */
  datatype FetchedAppointment = FetchedAppointment(row: Appointment, links: seq<AppointmentService>)

  // ---------------------------------------------------------------------------
  // Booking computation
  // ---------------------------------------------------------------------------

  /** A booking needs a client, at least one service and a date. */
  predicate BookingComplete(clientId: Id, selection: seq<Id>, date: Option<int>)
  {
    clientId != "" && |selection| > 0 && date.Some?
  }

  /** The duration of the first service with that id, or 0 when there is none. */
  function DurationOf(services: seq<Service>, id: Id): int
  {
    match FindService(services, id)
    case Some(s) => s.duration
    case None => 0
  }

  /** The price of the first service with that id, or 0 when there is none. */
  function PriceOf(services: seq<Service>, id: Id): real
  {
    match FindService(services, id)
    case Some(s) => s.price
    case None => 0.0
  }

  ghost predicate DurationsNonNegative(services: seq<Service>)
  {
    forall i :: 0 <= i < |services| ==> services[i].duration >= 0
  }

  /** The `reduce` over the selection: the sum of the selected services'
      durations in minutes; an id with no service adds nothing. */
  function TotalDuration(selection: seq<Id>, services: seq<Service>): (total: int)
    ensures DurationsNonNegative(services) ==> total >= 0
    ensures (forall i :: 0 <= i < |selection| ==> FindService(services, selection[i]).None?) ==> total == 0
  {
    if selection == [] then 0 else DurationOf(services, selection[0]) + TotalDuration(selection[1..], services)
  }

  lemma {:induction false} TotalDurationConcat(a: seq<Id>, b: seq<Id>, services: seq<Service>)
    ensures TotalDuration(a + b, services) == TotalDuration(a, services) + TotalDuration(b, services)
  {
    if a != [] {
      assert (a + b)[0] == a[0];
      assert (a + b)[1..] == a[1..] + b;
      TotalDurationConcat(a[1..], b, services);
    } else {
      assert a + b == b;
    }
  }

  /** Taking the `k`-th pick out of a selection takes its duration out of the total. */
  lemma TotalDurationRemove(b: seq<Id>, k: int, services: seq<Service>)
    requires 0 <= k < |b|
    ensures TotalDuration(b, services)
         == DurationOf(services, b[k]) + TotalDuration(b[..k] + b[k + 1..], services)
  {
    assert b == b[..k] + ([b[k]] + b[k + 1..]);
    TotalDurationConcat(b[..k], [b[k]] + b[k + 1..], services);
    TotalDurationConcat(b[..k], b[k + 1..], services);
    assert ([b[k]] + b[k + 1..])[1..] == b[k + 1..];
  }

  /** Matching the first pick of `a` with an equal pick of `b` leaves two
      selections that are again rearrangements of each other. */
  lemma RemoveMatchingPick(a: seq<Id>, b: seq<Id>, k: int)
    requires multiset(a) == multiset(b) && a != [] && 0 <= k < |b| && b[k] == a[0]
    ensures multiset(a[1..]) == multiset(b[..k] + b[k + 1..])
  {
    assert a == [a[0]] + a[1..];
    assert multiset(a) == multiset{a[0]} + multiset(a[1..]);
    var rest := b[..k] + b[k + 1..];
    assert b == b[..k] + ([b[k]] + b[k + 1..]);
    assert multiset(b) == multiset(b[..k]) + multiset{b[k]} + multiset(b[k + 1..]);
    assert multiset(rest) == multiset(b[..k]) + multiset(b[k + 1..]);
    assert multiset(a[1..]) == multiset(a) - multiset{a[0]};
    assert multiset(rest) == multiset(b) - multiset{b[k]};
  }

  /** The order in which services are picked does not change the duration. */
  lemma {:induction false} TotalDurationPermutation(a: seq<Id>, b: seq<Id>, services: seq<Service>)
    requires multiset(a) == multiset(b)
    ensures TotalDuration(a, services) == TotalDuration(b, services)
    decreases |a|
  {
    if a == [] {
      assert |b| == |multiset(b)| == 0;
    } else {
      assert a[0] in multiset(a);
      var k :| 0 <= k < |b| && b[k] == a[0];
      RemoveMatchingPick(a, b, k);
      TotalDurationRemove(b, k, services);
      TotalDurationPermutation(a[1..], b[..k] + b[k + 1..], services);
    }
  }

  /** The end of a booking: `totalMinutes` whole minutes of 60000 ms after `start`. */
  function EndTime(start: int, totalMinutes: int): (end: int)
    ensures (end - start) % MillisPerMinute == 0 && (end - start) / MillisPerMinute == totalMinutes
    ensures totalMinutes >= 0 ==> end >= start
    ensures totalMinutes < 0 ==> end < start
  {
    start + totalMinutes * MillisPerMinute
  }

  /** With no negative durations a booking never ends before it starts, and
      booking `a` then `b` back to back ends where booking `a + b` ends. */
  lemma BookingEndTime(start: int, a: seq<Id>, b: seq<Id>, services: seq<Service>)
    ensures DurationsNonNegative(services) ==> EndTime(start, TotalDuration(a, services)) >= start
    ensures EndTime(start, TotalDuration(a + b, services))
         == EndTime(EndTime(start, TotalDuration(a, services)), TotalDuration(b, services))
  {
    TotalDurationConcat(a, b, services);
  }

  /** Two services of 30 and 45 minutes booked at 10:00 end at 11:15. */
  lemma BookingExample()
    ensures var services := [Service("a", "Corte", 50.0, 30, None), Service("b", "Escova", 40.0, 45, None)];
            var tenOClock := 10 * 60 * MillisPerMinute;
            EndTime(tenOClock, TotalDuration(["a", "b"], services)) == tenOClock + 75 * MillisPerMinute
  {
  }

  /** The `servicesToInsert` map: one row per selected id, in selection
      order, carrying the service's current price. */
  function JoinRows(appointmentId: Id, selection: seq<Id>, services: seq<Service>): (rows: seq<AppointmentService>)
    ensures |rows| == |selection|
    ensures AllFor(rows, appointmentId)
    ensures forall i :: 0 <= i < |rows| ==>
      rows[i].serviceId == selection[i] &&
      rows[i].price == (if FindService(services, selection[i]).Some? then FindService(services, selection[i]).value.price else 0.0)
  {
    seq(|selection|, i requires 0 <= i < |selection| =>
      AppointmentService(appointmentId, selection[i], PriceOf(services, selection[i])))
  }

  /** The service ids of an appointment's join rows, one per row and in row
      order: the selection the dialog shows for the appointment. */
  function SelectionOf(links: seq<AppointmentService>): (ids: seq<Id>)
    ensures |ids| == |links|
    ensures forall id :: id in ids <==> exists l :: l in links && l.serviceId == id
  {
    var ids := seq(|links|, i requires 0 <= i < |links| => links[i].serviceId);
    assert forall i :: 0 <= i < |links| ==> ids[i] == links[i].serviceId;
    ids
  }

  /** Reopening the dialog on the rows a save wrote shows the same selection. */
  lemma {:induction false} JoinRowsSelection(appointmentId: Id, selection: seq<Id>, services: seq<Service>)
    ensures SelectionOf(JoinRows(appointmentId, selection, services)) == selection
  {
    var rows := JoinRows(appointmentId, selection, services);
    assert |SelectionOf(rows)| == |selection|;
    forall i | 0 <= i < |selection| ensures SelectionOf(rows)[i] == selection[i] {
    }
  }

  /** A save leaves exactly the selected services on the appointment, one row
      each and in order, leaves every other appointment's rows alone, and
      saving the same selection again changes nothing. */
  lemma SavedJoinRows(links: seq<AppointmentService>, id: Id, selection: seq<Id>, services: seq<Service>)
    ensures SelectionOf(LinksFor(Replaced(links, id, JoinRows(id, selection, services)), id)) == selection
    ensures forall other :: other != id ==>
      LinksFor(Replaced(links, id, JoinRows(id, selection, services)), other) == LinksFor(links, other)
    ensures var once := Replaced(links, id, JoinRows(id, selection, services));
            Replaced(once, id, JoinRows(id, selection, services)) == once
  {
    var rows := JoinRows(id, selection, services);
    ReplacedLinks(links, id, rows);
    ReplaceIdempotent(links, id, rows);
    JoinRowsSelection(id, selection, services);
  }

  // ---------------------------------------------------------------------------
  // Search filter (`handleFilter`)
  // ---------------------------------------------------------------------------

  /** The name of the first service with that id, or the empty text when there is none. */
  function NameOrEmpty(services: seq<Service>, id: Id): string
  {
    match FindService(services, id)
    case Some(s) => s.name
    case None => ""
  }

  function ServiceNameList(links: seq<AppointmentService>, services: seq<Service>): seq<string>
  {
    seq(|links|, i requires 0 <= i < |links| => NameOrEmpty(services, links[i].serviceId))
  }

  /** The service names of an appointment joined with ", ". */
  function ServiceNames(links: seq<AppointmentService>, services: seq<Service>): string
  {
    Join(ServiceNameList(links, services), ", ")
  }

  /** Whether the search term finds an appointment: in its client's name or
      in its joined service names, ignoring case, or in its client's non-empty
      phone as typed. An empty term finds every appointment, and one whose
      client is gone is found by its service names alone. */
  function AppointmentMatches(a: FetchedAppointment, clients: seq<Client>, services: seq<Service>, term: string): (m: bool)
    ensures term == "" ==> m
    ensures FindClient(clients, a.row.clientId).None? ==>
      (m <==> Includes(Lower(ServiceNames(a.links, services)), Lower(term)))
  {
    IncludesEmpty(Lower(ServiceNames(a.links, services)));
    var client := FindClient(clients, a.row.clientId);
    (client.Some? && Includes(Lower(client.value.name), Lower(term)))
    || (client.Some? && client.value.phone.Some? && client.value.phone.value != ""
        && Includes(client.value.phone.value, term))
    || Includes(Lower(ServiceNames(a.links, services)), Lower(term))
  }

  /** An empty term shows every appointment; otherwise the appointments that
      match on the client's name, the client's phone or the service names. */
  function FilterAppointments(appointments: seq<FetchedAppointment>, clients: seq<Client>,
                              services: seq<Service>, term: string): (r: seq<FetchedAppointment>)
    ensures term == "" ==> r == appointments
    ensures IsSubsequence(r, appointments)
    ensures term != "" ==> forall a :: a in r <==> a in appointments && AppointmentMatches(a, clients, services, term)
  {
    if term == "" then
      SubsequenceReflexive(appointments);
      appointments
    else
      Filter(appointments, (a: FetchedAppointment) => AppointmentMatches(a, clients, services, term))
  }

  /** An appointment is found by the name of any one of its services. */
  lemma ServiceNameFindsAppointment(appointments: seq<FetchedAppointment>, clients: seq<Client>,
                                    services: seq<Service>, term: string, a: FetchedAppointment, k: int)
    requires a in appointments && 0 <= k < |a.links|
    requires Includes(Lower(NameOrEmpty(services, a.links[k].serviceId)), Lower(term))
    ensures a in FilterAppointments(appointments, clients, services, term)
  {
    var parts := ServiceNameList(a.links, services);
    IncludesLowerJoinedPart(parts, ", ", k, Lower(term));
  }

  // ---------------------------------------------------------------------------
  // Quick-add checks
  // ---------------------------------------------------------------------------

  /** `handleSaveNewService`'s checks. `priceValue`/`durationValue` are what
      `Number(...)` gives for the text (None for NaN). */
  function ValidateNewService(name: string, priceText: string, priceValue: Option<real>,
                              durationText: string, durationValue: Option<int>): (r: Result<ServiceInput>)
    ensures r == Err(RequiredFields) <==> name == "" || priceText == "" || durationText == ""
    ensures r == Err(InvalidPrice) <==>
      name != "" && priceText != "" && durationText != "" && (priceValue.None? || priceValue.value < 0.0)
    ensures r.Ok? <==>
      name != "" && priceText != "" && durationText != ""
      && priceValue.Some? && priceValue.value >= 0.0 && durationValue.Some? && durationValue.value > 0
    ensures r.Ok? ==> r.value == ServiceInput(name, priceValue.value, durationValue.value)
    ensures r.Err? ==> r.message in {RequiredFields, InvalidPrice, InvalidDuration}
  {
    if name == "" || priceText == "" || durationText == "" then Err(RequiredFields)
    else if priceValue.None? || priceValue.value < 0.0 then Err(InvalidPrice)
    else if durationValue.None? || durationValue.value <= 0 then Err(InvalidDuration)
    else Ok(ServiceInput(name, priceValue.value, durationValue.value))
  }

  /** The dialog's checks and the services page's checks let the same inputs
      through and build the same service; they differ only in the message
      shown for an empty field. */
  lemma QuickAddAgreesWithServiceForm(name: string, priceText: string, priceValue: Option<real>,
                                      durationText: string, durationValue: Option<int>)
    ensures var quick := ValidateNewService(name, priceText, priceValue, durationText, durationValue);
            var page := Services.ValidateService(name, priceText, priceValue, durationText, durationValue);
            && (quick.Ok? <==> page.Ok?)
            && (quick.Ok? ==> quick.value == page.value)
            && (name != "" && priceText != "" && durationText != "" ==> quick == page)
  {
  }

  /** A service added from the dialog to the end of `services`, and its id to
      the end of the selection, lengthens the booking by its duration. */
  lemma QuickAddedServiceDuration(selection: seq<Id>, services: seq<Service>, s: Service)
    requires FindService(services, s.id).None? && s.id !in selection
    ensures TotalDuration(selection + [s.id], services + [s]) == TotalDuration(selection, services) + s.duration
  {
    TotalDurationConcat(selection, [s.id], services + [s]);
    FindServiceAppend(services, s, s.id);
    assert TotalDuration([s.id], services + [s]) == s.duration;
    TotalDurationAppendUnused(selection, services, s);
  }

  lemma {:induction false} TotalDurationAppendUnused(selection: seq<Id>, services: seq<Service>, s: Service)
    requires s.id !in selection
    ensures TotalDuration(selection, services + [s]) == TotalDuration(selection, services)
  {
    if selection != [] {
      FindServiceAppend(services, s, selection[0]);
      assert selection[0] != s.id;
      TotalDurationAppendUnused(selection[1..], services, s);
    }
  }

  // ---------------------------------------------------------------------------
  // The page state and its handlers
  // ---------------------------------------------------------------------------

  /** Whether phase one of a save, the appointment write, succeeds: an edit
      must find exactly one row to update. */
  function AppointmentWriteOk(appointments: seq<Appointment>, current: Option<FetchedAppointment>, accepted: bool): bool
  {
    accepted && (current.Some? ==> CountWithId(appointments, current.value.row.id) == 1)
  }

  /** The id the join rows are written under. */
  function BookingId(current: Option<FetchedAppointment>, assignedId: Id): Id
  {
    if current.Some? then current.value.row.id else assignedId
  }

  /** The `appointments` table after phase one succeeds. */
  function WrittenAppointments(appointments: seq<Appointment>, current: Option<FetchedAppointment>, assignedId: Id,
                               clientId: Id, start: int, end: int, userId: Option<Id>): seq<Appointment>
  {
    match current
    case Some(a) => UpdateAppointmentRows(appointments, a.row.id, clientId, start, end)
    case None => appointments + [Appointment(assignedId, clientId, start, end, userId)]
  }

  class AppointmentsPage {
    var clients: seq<Client>
    var services: seq<Service>
    var current: Option<FetchedAppointment>
    var clientId: Id
    var selection: seq<Id>
    var date: Option<int>
    var error: string

    constructor (clients: seq<Client>, services: seq<Service>, now: int)
      ensures this.clients == clients && this.services == services
      ensures current == None && clientId == "" && selection == [] && date == Some(now) && error == ""
    {
      this.clients := clients;
      this.services := services;
      current := None;
      clientId := "";
      selection := [];
      date := Some(now);
      error := "";
    }

    /** `handleOpenDialog`: editing pre-fills client, services and date from
        the appointment; a new booking starts empty, dated `now`. */
    method OpenDialog(appointment: Option<FetchedAppointment>, now: int)
      modifies this`current, this`clientId, this`selection, this`date
      ensures current == appointment
      ensures appointment.Some? ==>
        clientId == appointment.value.row.clientId && selection == SelectionOf(appointment.value.links)
        && date == Some(appointment.value.row.startTime)
      ensures appointment.None? ==> clientId == "" && selection == [] && date == Some(now)
    {
      current := appointment;
      match appointment {
        case Some(a) =>
          clientId := a.row.clientId;
          selection := SelectionOf(a.links);
          date := Some(a.row.startTime);
        case None =>
          clientId := "";
          selection := [];
          date := Some(now);
      }
    }

    /** `handleSaveAppointment`. `userId` is the signed-in user, `assignedId`
        the id the store gives a new appointment, `writeAccepted` and
        `linksAccepted` the store's answers to the appointment write and to
        the join-row insert. */
    method SaveAppointment(store: Store, userId: Option<Id>, assignedId: Id, writeAccepted: bool, linksAccepted: bool)
      returns (r: Result<Id>)
      modifies this`error, store`appointments, store`links
      ensures var complete := BookingComplete(clientId, selection, date);
              var wrote := complete && AppointmentWriteOk(old(store.appointments), current, writeAccepted);
              var id := BookingId(current, assignedId);
              && (!complete ==> r == Err(RequiredFields))
              && (complete && !r.Ok? ==> r == Err(SaveFailed))
              && (r.Ok? <==> wrote && linksAccepted)
              && (r.Ok? ==> r.value == id)
              && store.appointments ==
                   (if wrote
                    then WrittenAppointments(old(store.appointments), current, assignedId, clientId, date.value,
                                             EndTime(date.value, TotalDuration(selection, services)), userId)
                    else old(store.appointments))
              && store.links ==
                   (if !wrote then old(store.links)
                    else if linksAccepted then Replaced(old(store.links), id, JoinRows(id, selection, services))
                    else LinksNotFor(old(store.links), id))
      ensures error == if r.Ok? then old(error) else r.message
    {
      if !BookingComplete(clientId, selection, date) {
        error := RequiredFields;
        return Err(RequiredFields);
      }
      var totalDurationMinutes := TotalDuration(selection, services);
      var start := date.value;
      var end := EndTime(start, totalDurationMinutes);
      var appointmentId: Id;
      var ok: bool;
      if current.Some? {
        appointmentId := current.value.row.id;
        ok := store.UpdateAppointment(appointmentId, clientId, start, end, writeAccepted);
      } else {
        appointmentId := assignedId;
        ok := store.InsertAppointment(Appointment(assignedId, clientId, start, end, userId), writeAccepted);
      }
      if !ok {
        error := SaveFailed;
        return Err(SaveFailed);
      }
      var rows := JoinRows(appointmentId, selection, services);
      ok := store.ReplaceFor(appointmentId, rows, linksAccepted);
      if !ok {
        error := SaveFailed;
        return Err(SaveFailed);
      }
      r := Ok(appointmentId);
    }

    /** `handleSaveNewClient`: an empty name is refused; otherwise the store
        inserts the client (an empty phone stored as null), and the page adds
        it to its clients and selects it. */
    method SaveNewClient(store: Store, name: string, phone: string, userId: Option<Id>, assignedId: Id, accepted: bool)
      returns (r: Result<Client>)
      modifies this`clients, this`clientId, this`error, store`clients
      ensures name == "" ==> r == Err(NameRequired)
      ensures name != "" ==> (r.Ok? <==> accepted)
      ensures name != "" && !accepted ==> r == Err(ClientSaveFailed)
      ensures r.Ok? ==>
        r.value == Client(assignedId, name, if phone == "" then None else Some(phone), userId)
        && clients == old(clients) + [r.value] && clientId == assignedId
        && store.clients == old(store.clients) + [r.value]
      ensures !r.Ok? ==> clients == old(clients) && clientId == old(clientId) && store.clients == old(store.clients)
      ensures error == if r.Ok? then old(error) else r.message
    {
      if name == "" {
        error := NameRequired;
        return Err(NameRequired);
      }
      var row := Client(assignedId, name, if phone == "" then None else Some(phone), userId);
      var ok := store.InsertClient(row, accepted);
      if !ok {
        error := ClientSaveFailed;
        return Err(ClientSaveFailed);
      }
      clients := clients + [row];
      clientId := row.id;
      r := Ok(row);
    }

    /** `handleSaveNewService`: the checks of `ValidateNewService`; on success
        the store inserts the service, and the page appends it to its services
        and its id to the selection. */
    method SaveNewService(store: Store, name: string, priceText: string, priceValue: Option<real>,
                          durationText: string, durationValue: Option<int>,
                          userId: Option<Id>, assignedId: Id, accepted: bool)
      returns (r: Result<Service>)
      modifies this`services, this`selection, this`error, store`services
      ensures var checked := ValidateNewService(name, priceText, priceValue, durationText, durationValue);
              && (checked.Err? ==> r == Err(checked.message))
              && (checked.Ok? ==> (r.Ok? <==> accepted))
              && (checked.Ok? && !accepted ==> r == Err(ServiceSaveFailed))
              && (r.Ok? ==>
                    r.value == Service(assignedId, checked.value.name, checked.value.price, checked.value.duration, userId)
                    && services == old(services) + [r.value] && selection == old(selection) + [assignedId]
                    && store.services == old(store.services) + [r.value])
      ensures !r.Ok? ==> services == old(services) && selection == old(selection) && store.services == old(store.services)
      ensures error == if r.Ok? then old(error) else r.message
    {
      var checked := ValidateNewService(name, priceText, priceValue, durationText, durationValue);
      if checked.Err? {
        error := checked.message;
        return Err(checked.message);
      }
      var row := Service(assignedId, checked.value.name, checked.value.price, checked.value.duration, userId);
      var ok := store.InsertService(row, accepted);
      if !ok {
        error := ServiceSaveFailed;
        return Err(ServiceSaveFailed);
      }
      services := services + [row];
      selection := selection + [row.id];
      r := Ok(row);
    }
  }
}
