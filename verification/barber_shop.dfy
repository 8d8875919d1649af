/** The BarberShop document and its embedded Barber, Appointment and Client sub-documents,
    with the constraints the schema places on stored documents. */
module BarberShopSchema {
  import opened Wrappers

  /** Document identifiers (`_id`) and user identifiers; both come from outside the model. */
  type Id = nat

  /** A booking client; both fields are required strings, and an empty string fails `required`. */
  datatype Client = Client(name: string, phone: string)

  /** One entry of a barber's schedule. `client == None` is an open slot. */
  datatype Appointment = Appointment(id: Id, client: Option<Client>, dateTime: int, serviceType: string)

  /** A barber and the ordered schedule of appointments embedded in it. */
  datatype Barber = Barber(id: Id, name: string, schedule: seq<Appointment>)

  /** The `status` enum of a shop. */
  datatype Status = Active | Inactive

  /** The value `status` takes when a document is created without one. */
  const DefaultStatus: Status := Inactive

  /** A barbershop document: the aggregate root owning its barbers. */
  datatype Shop = Shop(id: Id, name: string, ownerId: Id, url: string, status: Status, barbers: seq<Barber>)

  /** A required string field holds a non-empty value. */
  predicate Present(s: string) {
    s != ""
  }

  predicate ClientValid(c: Client) {
    Present(c.name) && Present(c.phone)
  }

  /** A stored appointment has a client with name and phone, and a service type. */
  predicate AppointmentValid(a: Appointment) {
    a.client.Some? && ClientValid(a.client.value) && Present(a.serviceType)
  }

  predicate BarberValid(b: Barber) {
    Present(b.name) && forall k :: 0 <= k < |b.schedule| ==> AppointmentValid(b.schedule[k])
  }

  /** The required fields of a shop and of every document embedded in it. */
  predicate ShopValid(s: Shop) {
    Present(s.name) && Present(s.url) && forall i :: 0 <= i < |s.barbers| ==> BarberValid(s.barbers[i])
  }

  /** The barbers of a shop carry pairwise distinct names. */
  predicate DistinctBarberNames(bs: seq<Barber>) {
    forall i, j :: 0 <= i < j < |bs| ==> bs[i].name != bs[j].name
  }

  predicate DistinctBarberIds(bs: seq<Barber>) {
    forall i, j :: 0 <= i < j < |bs| ==> bs[i].id != bs[j].id
  }

  predicate DistinctAppointmentIds(sch: seq<Appointment>) {
    forall i, j :: 0 <= i < j < |sch| ==> sch[i].id != sch[j].id
  }

  /** Every appointment id of a schedule lies below `bound`. */
  predicate ScheduleIdsBelow(sch: seq<Appointment>, bound: nat) {
    forall k :: 0 <= k < |sch| ==> sch[k].id < bound
  }

  /** What holds of every stored barber, given the next unused id: the schema's constraints,
      ids already handed out, and no appointment id repeated. */
  predicate BarberInv(b: Barber, bound: nat) {
    && BarberValid(b)
    && b.id < bound
    && ScheduleIdsBelow(b.schedule, bound)
    && DistinctAppointmentIds(b.schedule)
  }

  /** What holds of every stored shop, given the next unused id. */
  predicate ShopInv(s: Shop, bound: nat) {
    && Present(s.name)
    && Present(s.url)
    && s.id < bound
    && (forall i :: 0 <= i < |s.barbers| ==> BarberInv(s.barbers[i], bound))
    && DistinctBarberNames(s.barbers)
    && DistinctBarberIds(s.barbers)
  }

  /** A shop meeting the invariant meets the schema. */
  lemma ShopInvIsValid(s: Shop, bound: nat)
    requires ShopInv(s, bound)
    ensures ShopValid(s)
  {
  }
}
