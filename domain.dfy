/**
 * The records the calendar works on, as the database types declare them
 * (`frontend/src/types/db.ts`). Timestamps are instants of the Calendar module and
 * prices are integer cents.
 */
module Domain {
  import opened Wrappers
  import opened Calendar

  datatype Role = Owner | Barber | Admin | Cliente

  datatype Status = Agendado | Concluido | Cancelado | Bloqueio

  /** The service fields the read path joins onto an appointment (`services(nome, preco)`). */
  datatype ServiceInfo = ServiceInfo(name: string, priceCents: int)

  datatype Appointment = Appointment(
    id: string,
    establishmentId: string,
    clientId: Option<string>,
    barberId: string,
    serviceId: Option<string>,
    start: Instant,
    end: Instant,
    status: Status,
    clientName: Option<string>,    // `profiles?.nome`
    service: Option<ServiceInfo>   // `services?`
  )

  datatype Service = Service(id: string, establishmentId: string, name: string, priceCents: int, duracao: int)

  datatype Profile = Profile(id: string, nome: string, telefone: Option<string>, role: Role, establishmentId: Option<string>)

  datatype Establishment = Establishment(
    id: string,
    name: string,
    slug: string,
    address: Option<string>,
    ownerId: string,
    openingTime: Option<string>,
    closingTime: Option<string>,
    lunchStart: Option<string>,
    lunchEnd: Option<string>,
    slotDuration: int
  )

  /** JavaScript truthiness of an optional string: present and not empty. */
  predicate Truthy(s: Option<string>) { s.Some? && s.value != "" }
}

/**
 * The appointments table as the views reach it through the data store client: a range
 * query on the start time and a status update by id. The store's own order of rows is
 * kept as the order of the sequence.
 */
module Store {
  import opened Domain
  import opened Calendar

  /** `.eq('establishment_id', est).gte('data_hora_inicio', lo).lte('data_hora_inicio', hi)`. */
  function QueryByStart(rows: seq<Appointment>, est: string, lo: Instant, hi: Instant): (r: seq<Appointment>)
    ensures |r| <= |rows|
    ensures forall a :: a in r <==> a in rows && a.establishmentId == est && lo <= a.start <= hi
    ensures forall a :: multiset(r)[a] <= multiset(rows)[a]
  {
    if rows == [] then []
    else
      var rest := QueryByStart(rows[1..], est, lo, hi);
      assert rows == [rows[0]] + rows[1..];
      if rows[0].establishmentId == est && lo <= rows[0].start <= hi then [rows[0]] + rest else rest
  }

  /** `.update({ status }).eq('id', id)`: every row with that id gets the new status. */
  function UpdateStatus(rows: seq<Appointment>, id: string, s: Status): (r: seq<Appointment>)
    ensures |r| == |rows|
    ensures forall i :: 0 <= i < |rows| ==>
      r[i] == if rows[i].id == id then rows[i].(status := s) else rows[i]
  {
    if rows == [] then []
    else [if rows[0].id == id then rows[0].(status := s) else rows[0]] + UpdateStatus(rows[1..], id, s)
  }
}
