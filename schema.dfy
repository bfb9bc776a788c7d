/** Rows of the five tables of src/lib/database.types.ts that the pages read
    and write, and the `Array.prototype.find` look-ups the pages do over them.
    `profiles` and the store-filled columns (`created_at`, `status`, `notes`,
    the join row's own `id`) are not read by the modelled code. */
module Schema {
  import opened Common

  /** Identifiers are opaque strings; the empty string means "nothing chosen". */
  type Id = string

  datatype Client = Client(id: Id, name: string, phone: Option<string>, createdBy: Option<Id>)

  /** `price` in currency units, `duration` in minutes. */
  datatype Service = Service(id: Id, name: string, price: real, duration: int, createdBy: Option<Id>)

  /** `startTime` and `endTime` in milliseconds since the epoch. */
  datatype Appointment = Appointment(id: Id, clientId: Id, startTime: int, endTime: int, createdBy: Option<Id>)

  /** A row of `appointment_services`: `price` is a snapshot of the service's price. */
  datatype AppointmentService = AppointmentService(appointmentId: Id, serviceId: Id, price: real)

  /** What a service form hands to the store once its checks pass. */
  datatype ServiceInput = ServiceInput(name: string, price: real, duration: int)

  /** The `find` by id: the first client with that id. */
  function FindClient(clients: seq<Client>, id: Id): (r: Option<Client>)
    ensures r.Some? ==> r.value in clients && r.value.id == id
    ensures r.None? <==> forall c :: c in clients ==> c.id != id
  {
    if clients == [] then None
    else if clients[0].id == id then Some(clients[0])
    else FindClient(clients[1..], id)
  }

  /** The `find` by id: the first service with that id. */
  function FindService(services: seq<Service>, id: Id): (r: Option<Service>)
    ensures r.Some? ==> r.value in services && r.value.id == id
    ensures r.None? <==> forall s :: s in services ==> s.id != id
  {
    if services == [] then None
    else if services[0].id == id then Some(services[0])
    else FindService(services[1..], id)
  }

  /** The search returns the FIRST match: appending a service changes the
      answer only for an id no earlier service has. */
  lemma {:induction false} FindServiceAppend(services: seq<Service>, s: Service, id: Id)
    ensures FindService(services + [s], id) ==
      if FindService(services, id).Some? then FindService(services, id)
      else if s.id == id then Some(s) else None
  {
    if services != [] {
      assert (services + [s])[1..] == services[1..] + [s];
      FindServiceAppend(services[1..], s, id);
    } else {
      assert [] + [s] == [s];
    }
  }
}
