/** The remote store as four in-memory tables. Every call that the pages
    check for an error takes `accepted`, the store's answer: when it is false
    the call reports an error and changes nothing. Identifiers the store
    generates are passed in by the caller. */
module RemoteStore {
  import opened Common
  import opened Schema

  function IsFor(id: Id): AppointmentService -> bool
  {
    (l: AppointmentService) => l.appointmentId == id
  }

  function IsNotFor(id: Id): AppointmentService -> bool
  {
    (l: AppointmentService) => l.appointmentId != id
  }

  /** The `appointment_services` rows of appointment `id`, in table order. */
  function LinksFor(links: seq<AppointmentService>, id: Id): seq<AppointmentService>
  {
    Filter(links, IsFor(id))
  }

  /** The table after deleting the rows of appointment `id`. */
  function LinksNotFor(links: seq<AppointmentService>, id: Id): seq<AppointmentService>
  {
    Filter(links, IsNotFor(id))
  }

  /** The table after deleting every row of `id` and then inserting `rows`. */
  function Replaced(links: seq<AppointmentService>, id: Id, rows: seq<AppointmentService>): seq<AppointmentService>
  {
    LinksNotFor(links, id) + rows
  }

  ghost predicate AllFor(rows: seq<AppointmentService>, id: Id)
  {
    forall i :: 0 <= i < |rows| ==> rows[i].appointmentId == id
  }

  /** After a replacement the rows of `id` are exactly the inserted ones, in
      insertion order, and every other appointment keeps its rows. */
  lemma ReplacedLinks(links: seq<AppointmentService>, id: Id, rows: seq<AppointmentService>)
    requires AllFor(rows, id)
    ensures LinksFor(Replaced(links, id, rows), id) == rows
    ensures forall other :: other != id ==>
      LinksFor(Replaced(links, id, rows), other) == LinksFor(links, other)
  {
    FilterConcat(LinksNotFor(links, id), rows, IsFor(id));
    FilterAfterFilter(links, IsNotFor(id), IsFor(id));
    forall other | other != id
      ensures LinksFor(Replaced(links, id, rows), other) == LinksFor(links, other)
    {
      FilterConcat(LinksNotFor(links, id), rows, IsFor(other));
      FilterAfterFilter(links, IsNotFor(id), IsFor(other));
      assert Filter(rows, IsFor(other)) == [] by {
        FilterAfterFilter(rows, IsFor(id), IsFor(other));
        assert Filter(rows, IsFor(id)) == rows;
      }
    }
  }

  /** Replacing twice with the same rows leaves the table as one replacement does. */
  lemma ReplaceIdempotent(links: seq<AppointmentService>, id: Id, rows: seq<AppointmentService>)
    requires AllFor(rows, id)
    ensures Replaced(Replaced(links, id, rows), id, rows) == Replaced(links, id, rows)
  {
    var kept := LinksNotFor(links, id);
    FilterConcat(kept, rows, IsNotFor(id));
    FilterTwice(links, IsNotFor(id));
    FilterNone(rows, IsNotFor(id));
    assert LinksNotFor(kept + rows, id) == kept;
  }

  function CountWithId(rows: seq<Appointment>, id: Id): nat
  {
    if rows == [] then 0 else (if rows[0].id == id then 1 else 0) + CountWithId(rows[1..], id)
  }

  function UpdateAppointmentRows(rows: seq<Appointment>, id: Id, clientId: Id, startTime: int, endTime: int): seq<Appointment>
  {
    seq(|rows|, i requires 0 <= i < |rows| =>
      if rows[i].id == id then rows[i].(clientId := clientId, startTime := startTime, endTime := endTime) else rows[i])
  }

  function UpdateClientRows(rows: seq<Client>, id: Id, name: string, phone: Option<string>): seq<Client>
  {
    seq(|rows|, i requires 0 <= i < |rows| =>
      if rows[i].id == id then rows[i].(name := name, phone := phone) else rows[i])
  }

  function UpdateServiceRows(rows: seq<Service>, id: Id, name: string, price: real, duration: int): seq<Service>
  {
    seq(|rows|, i requires 0 <= i < |rows| =>
      if rows[i].id == id then rows[i].(name := name, price := price, duration := duration) else rows[i])
  }

  class Store {
    var clients: seq<Client>
    var services: seq<Service>
    var appointments: seq<Appointment>
    var links: seq<AppointmentService>

    constructor (clients: seq<Client>, services: seq<Service>, appointments: seq<Appointment>, links: seq<AppointmentService>)
      ensures this.clients == clients && this.services == services
      ensures this.appointments == appointments && this.links == links
    {
      this.clients := clients;
      this.services := services;
      this.appointments := appointments;
      this.links := links;
    }

    method InsertClient(row: Client, accepted: bool) returns (ok: bool)
      modifies this`clients
      ensures ok == accepted
      ensures clients == if ok then old(clients) + [row] else old(clients)
    {
      ok := accepted;
      if ok {
        clients := clients + [row];
      }
    }

    /** An update by id: no row matching is not an error. */
    method UpdateClient(id: Id, name: string, phone: Option<string>, accepted: bool) returns (ok: bool)
      modifies this`clients
      ensures ok == accepted
      ensures clients == if ok then UpdateClientRows(old(clients), id, name, phone) else old(clients)
    {
      ok := accepted;
      if ok {
        clients := UpdateClientRows(clients, id, name, phone);
      }
    }

    method InsertService(row: Service, accepted: bool) returns (ok: bool)
      modifies this`services
      ensures ok == accepted
      ensures services == if ok then old(services) + [row] else old(services)
    {
      ok := accepted;
      if ok {
        services := services + [row];
      }
    }

    method UpdateService(id: Id, name: string, price: real, duration: int, accepted: bool) returns (ok: bool)
      modifies this`services
      ensures ok == accepted
      ensures services == if ok then UpdateServiceRows(old(services), id, name, price, duration) else old(services)
    {
      ok := accepted;
      if ok {
        services := UpdateServiceRows(services, id, name, price, duration);
      }
    }

    method InsertAppointment(row: Appointment, accepted: bool) returns (ok: bool)
      modifies this`appointments
      ensures ok == accepted
      ensures appointments == if ok then old(appointments) + [row] else old(appointments)
    {
      ok := accepted;
      if ok {
        appointments := appointments + [row];
      }
    }

    /** An update by id that reads back the single updated row: an error unless
        exactly one row has that id. */
    method UpdateAppointment(id: Id, clientId: Id, startTime: int, endTime: int, accepted: bool) returns (ok: bool)
      modifies this`appointments
      ensures ok == (accepted && CountWithId(old(appointments), id) == 1)
      ensures appointments ==
        if ok then UpdateAppointmentRows(old(appointments), id, clientId, startTime, endTime) else old(appointments)
    {
      ok := accepted && CountWithId(appointments, id) == 1;
      if ok {
        appointments := UpdateAppointmentRows(appointments, id, clientId, startTime, endTime);
      }
    }

    /** The page never looks at this call's result, so it always succeeds here. */
    method DeleteLinksFor(id: Id)
      modifies this`links
      ensures links == LinksNotFor(old(links), id)
    {
      links := LinksNotFor(links, id);
    }

    method InsertLinks(rows: seq<AppointmentService>, accepted: bool) returns (ok: bool)
      modifies this`links
      ensures ok == accepted
      ensures links == if ok then old(links) + rows else old(links)
    {
      ok := accepted;
      if ok {
        links := links + rows;
      }
    }

    /** Delete-all, then bulk insert, with no transaction around them: when
        the insert fails the appointment is left with no rows at all. */
    method ReplaceFor(id: Id, rows: seq<AppointmentService>, accepted: bool) returns (ok: bool)
      modifies this`links
      ensures ok == accepted
      ensures links == if ok then Replaced(old(links), id, rows) else LinksNotFor(old(links), id)
    {
      DeleteLinksFor(id);
      ok := InsertLinks(rows, accepted);
    }
  }
}
