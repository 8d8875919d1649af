/** The barbershop controller: every request handler as a pure function from the registry of
    stored shops (keyed by url) and the request fields to a reply and the registry after it. */
module BarberShopController {
  import opened Wrappers
  import opened Seqs
  import opened BarberShopSchema

  /** The stored shops, keyed by their unique url, and the next unused document id.
      `nextId` stands in for the database's `_id` generator: every new shop, barber or
      appointment takes it, and it then advances. */
  datatype Registry = Registry(shops: map<string, Shop>, nextId: nat)

  /** The error kinds a handler answers with: 400 for missing fields, 404 for a missing
      shop/barber/appointment, and 400 for a name or url already taken. */
  datatype Err = InvalidInput | NotFound | Duplicate

  /** A handler's answer together with the registry it leaves behind. */
  datatype Reply<T> = Reply(registry: Registry, result: Result<T, Err>)

  /** The `{ id, name }` projection of a barber. */
  datatype BarberSummary = BarberSummary(id: Id, name: string)

  /** The `{ dateTime, serviceType }` projection of an open slot. */
  datatype Slot = Slot(dateTime: int, serviceType: string)

  /** The body of the schedule reply: the barber's name and the open slots. */
  datatype ScheduleView = ScheduleView(barber: string, availableSlots: seq<Slot>)

  /** Each stored shop sits under its own url and satisfies the schema and the id discipline. */
  predicate Inv(reg: Registry) {
    forall u :: u in reg.shops ==> reg.shops[u].url == u && ShopInv(reg.shops[u], reg.nextId)
  }

  /** The request carried a client object with a name and a phone. */
  predicate ClientGiven(c: Option<Client>) {
    c.Some? && ClientValid(c.value)
  }

  /** Every shop other than the one at `url` is untouched, and no url appears or disappears. */
  predicate OnlyShopChanged(before: map<string, Shop>, after: map<string, Shop>, url: string) {
    && after.Keys == before.Keys
    && forall u :: u in before && u != url ==> after[u] == before[u]
  }

  /** `after` differs from `before` at most in the schedule of its barber `i`. */
  predicate OnlyScheduleChanged(before: Shop, after: Shop, i: nat) {
    && i < |before.barbers|
    && after == before.(barbers := after.barbers)
    && |after.barbers| == |before.barbers|
    && after.barbers[i] == before.barbers[i].(schedule := after.barbers[i].schedule)
    && forall j :: 0 <= j < |before.barbers| && j != i ==> after.barbers[j] == before.barbers[j]
  }

  // ---------------------------------------------------------------------------------------
  // Lookups, each the first match of a linear scan.

  /** The first barber with exactly this name: the search made when creating a barber or an appointment. */
  function BarberByName(bs: seq<Barber>, name: string): (r: Option<nat>)
    ensures r.Some? ==> r.value < |bs| && bs[r.value].name == name
    ensures r.Some? ==> forall j :: 0 <= j < r.value ==> bs[j].name != name
    ensures r.None? <==> forall j :: 0 <= j < |bs| ==> bs[j].name != name
  {
    FirstIndex(bs, (b: Barber) => b.name == name)
  }

  /** The first barber with this id: the search made by the schedule, update and delete handlers. */
  function BarberById(bs: seq<Barber>, id: Id): (r: Option<nat>)
    ensures r.Some? ==> r.value < |bs| && bs[r.value].id == id
    ensures r.Some? ==> forall j :: 0 <= j < r.value ==> bs[j].id != id
    ensures r.None? <==> forall j :: 0 <= j < |bs| ==> bs[j].id != id
  {
    FirstIndex(bs, (b: Barber) => b.id == id)
  }

  /** The first schedule entry with this id: the search made by the update and delete handlers. */
  function AppointmentById(sch: seq<Appointment>, id: Id): (r: Option<nat>)
    ensures r.Some? ==> r.value < |sch| && sch[r.value].id == id
    ensures r.Some? ==> forall j :: 0 <= j < r.value ==> sch[j].id != id
    ensures r.None? <==> forall j :: 0 <= j < |sch| ==> sch[j].id != id
  {
    FirstIndex(sch, (a: Appointment) => a.id == id)
  }

  /** The open slots of a schedule, in schedule order: entries without a client, projected. */
  function OpenSlots(sch: seq<Appointment>): (r: seq<Slot>)
    ensures |r| <= |sch|
  {
    if |sch| == 0 then []
    else
      var rest := OpenSlots(sch[..|sch| - 1]);
      var last := sch[|sch| - 1];
      if last.client.None? then rest + [Slot(last.dateTime, last.serviceType)] else rest
  }

  // ---------------------------------------------------------------------------------------
  // Handlers.

  /** POST /: a new shop owned by the caller, with default status and no barbers.
      The schema's `required` and `unique` constraints reject it otherwise. */
  function CreateBarberShop(reg: Registry, ownerId: Id, name: string, url: string): (r: Reply<Shop>)
    ensures r.result.Failure? ==> r.registry == reg
    ensures r.result == Failure(InvalidInput) <==> !Present(name) || !Present(url)
    ensures r.result == Failure(Duplicate) <==> Present(name) && Present(url) && url in reg.shops
    ensures r.result.Failure? ==> r.result.error != NotFound
    ensures r.result.Success? ==>
              var s := r.result.value;
              && url !in reg.shops
              && s.ownerId == ownerId && s.name == name && s.url == url
              && s.status == DefaultStatus && s.barbers == []
              && s.id == reg.nextId && r.registry.nextId == reg.nextId + 1
              && r.registry.shops.Keys == reg.shops.Keys + {url}
              && r.registry.shops[url] == s
              && forall u :: u in reg.shops ==> r.registry.shops[u] == reg.shops[u]
  {
    if !Present(name) || !Present(url) then Reply(reg, Failure(InvalidInput))
    else if url in reg.shops then Reply(reg, Failure(Duplicate))
    else
      var s := Shop(reg.nextId, name, ownerId, url, DefaultStatus, []);
      Reply(Registry(reg.shops[url := s], reg.nextId + 1), Success(s))
  }

  /** GET /:url: the stored shop whose url is exactly `url`. */
  function GetBarberShop(reg: Registry, url: string): (r: Result<Shop, Err>)
    ensures r.Success? <==> url in reg.shops
    ensures r.Success? ==> r.value == reg.shops[url]
    ensures r.Failure? ==> r.error == NotFound
  {
    if url in reg.shops then Success(reg.shops[url]) else Failure(NotFound)
  }

  /** POST /:url/barbers: appends a barber with an empty schedule unless the name is
      missing or already taken; replies with the whole barber list. */
  function CreateBarber(reg: Registry, url: string, barberName: string): (r: Reply<seq<Barber>>)
    ensures r.result.Failure? ==> r.registry == reg
    ensures r.result == Failure(InvalidInput) <==> !Present(barberName)
    ensures r.result == Failure(NotFound) <==> Present(barberName) && url !in reg.shops
    ensures r.result == Failure(Duplicate) <==>
              && Present(barberName) && url in reg.shops
              && exists j :: 0 <= j < |reg.shops[url].barbers| && reg.shops[url].barbers[j].name == barberName
    ensures r.result.Success? ==>
              && url in reg.shops
              && OnlyShopChanged(reg.shops, r.registry.shops, url)
              && r.registry.nextId == reg.nextId + 1
              && var before := reg.shops[url]; var after := r.registry.shops[url];
              && after == before.(barbers := after.barbers)
              && |after.barbers| == |before.barbers| + 1
              && (forall j :: 0 <= j < |before.barbers| ==> after.barbers[j] == before.barbers[j])
              && after.barbers[|before.barbers|] == Barber(reg.nextId, barberName, [])
              && r.result.value == after.barbers
  {
    if !Present(barberName) then Reply(reg, Failure(InvalidInput))
    else if url !in reg.shops then Reply(reg, Failure(NotFound))
    else
      var shop := reg.shops[url];
      if BarberByName(shop.barbers, barberName).Some? then Reply(reg, Failure(Duplicate))
      else
        var barbers := shop.barbers + [Barber(reg.nextId, barberName, [])];
        Reply(Registry(reg.shops[url := shop.(barbers := barbers)], reg.nextId + 1), Success(barbers))
  }

  /** POST /:url/appointments: appends a booking to the first barber with the given name,
      with no check against the barber's existing entries; replies with that schedule. */
  function CreateAppointment(reg: Registry, url: string, barberName: string, client: Option<Client>,
                             dateTime: Option<int>, serviceType: string): (r: Reply<seq<Appointment>>)
    ensures r.result.Failure? ==> r.registry == reg
    ensures r.result == Failure(InvalidInput) <==>
              !Present(barberName) || !ClientGiven(client) || dateTime.None? || !Present(serviceType)
    ensures r.result == Failure(NotFound) <==>
              && Present(barberName) && ClientGiven(client) && dateTime.Some? && Present(serviceType)
              && (url !in reg.shops || forall j :: 0 <= j < |reg.shops[url].barbers| ==> reg.shops[url].barbers[j].name != barberName)
    ensures r.result.Failure? ==> r.result.error != Duplicate
    ensures r.result.Success? ==>
              && url in reg.shops && dateTime.Some?
              && OnlyShopChanged(reg.shops, r.registry.shops, url)
              && r.registry.nextId == reg.nextId + 1
              && var i := BarberByName(reg.shops[url].barbers, barberName).value;
              && OnlyScheduleChanged(reg.shops[url], r.registry.shops[url], i)
              && var before := reg.shops[url].barbers[i].schedule;
              && var after := r.registry.shops[url].barbers[i].schedule;
              && |after| == |before| + 1
              && (forall k :: 0 <= k < |before| ==> after[k] == before[k])
              && after[|before|] == Appointment(reg.nextId, client, dateTime.value, serviceType)
              && r.result.value == after
  {
    if !Present(barberName) || !ClientGiven(client) || dateTime.None? || !Present(serviceType) then
      Reply(reg, Failure(InvalidInput))
    else if url !in reg.shops then Reply(reg, Failure(NotFound))
    else
      var shop := reg.shops[url];
      match BarberByName(shop.barbers, barberName)
      case None => Reply(reg, Failure(NotFound))
      case Some(i) =>
        var b := shop.barbers[i];
        var schedule := b.schedule + [Appointment(reg.nextId, client, dateTime.value, serviceType)];
        var shop' := shop.(barbers := shop.barbers[i := b.(schedule := schedule)]);
        Reply(Registry(reg.shops[url := shop'], reg.nextId + 1), Success(schedule))
  }

  /** GET /:url/barbers: the `{ id, name }` of every barber, in order. */
  function GetBarbers(reg: Registry, url: string): (r: Result<seq<BarberSummary>, Err>)
    ensures r.Success? <==> url in reg.shops
    ensures r.Failure? ==> r.error == NotFound
    ensures r.Success? ==>
              && |r.value| == |reg.shops[url].barbers|
              && forall j :: 0 <= j < |r.value| ==>
                   r.value[j] == BarberSummary(reg.shops[url].barbers[j].id, reg.shops[url].barbers[j].name)
  {
    if url !in reg.shops then Failure(NotFound)
    else
      var bs := reg.shops[url].barbers;
      Success(seq(|bs|, j requires 0 <= j < |bs| => BarberSummary(bs[j].id, bs[j].name)))
  }

  /** GET /:url/barbers/:barberId/schedule: the open slots of the first barber with that id. */
  function GetBarberSchedule(reg: Registry, url: string, barberId: Id): (r: Result<ScheduleView, Err>)
    ensures r.Failure? ==> r.error == NotFound
    ensures r.Success? <==>
              url in reg.shops && exists j :: 0 <= j < |reg.shops[url].barbers| && reg.shops[url].barbers[j].id == barberId
    ensures r.Success? ==>
              var b := reg.shops[url].barbers[BarberById(reg.shops[url].barbers, barberId).value];
              && b.id == barberId
              && r.value.barber == b.name
              && |r.value.availableSlots| <= |b.schedule|
              && r.value.availableSlots == OpenSlots(b.schedule)
  {
    if url !in reg.shops then Failure(NotFound)
    else
      var shop := reg.shops[url];
      match BarberById(shop.barbers, barberId)
      case None => Failure(NotFound)
      case Some(i) => Success(ScheduleView(shop.barbers[i].name, OpenSlots(shop.barbers[i].schedule)))
  }

  /** POST /:url/barbers/:barberId/appointments/:appointmentId: overwrites client, date and
      service of one appointment in place; replies with the barber's schedule. */
  function UpdateAppointment(reg: Registry, url: string, barberId: Id, appointmentId: Id,
                             client: Option<Client>, dateTime: Option<int>, serviceType: string): (r: Reply<seq<Appointment>>)
    ensures r.result.Failure? ==> r.registry == reg
    ensures r.result.Failure? ==> r.result.error != Duplicate
    ensures r.result == Failure(InvalidInput) <==> !ClientGiven(client) || dateTime.None? || !Present(serviceType)
    ensures r.result == Failure(NotFound) <==>
              && ClientGiven(client) && dateTime.Some? && Present(serviceType)
              && (|| url !in reg.shops
                  || BarberById(reg.shops[url].barbers, barberId).None?
                  || AppointmentById(reg.shops[url].barbers[BarberById(reg.shops[url].barbers, barberId).value].schedule,
                                     appointmentId).None?)
    ensures r.result.Success? ==>
              && url in reg.shops && dateTime.Some?
              && OnlyShopChanged(reg.shops, r.registry.shops, url)
              && r.registry.nextId == reg.nextId
              && var i := BarberById(reg.shops[url].barbers, barberId).value;
              && OnlyScheduleChanged(reg.shops[url], r.registry.shops[url], i)
              && var before := reg.shops[url].barbers[i].schedule;
              && var after := r.registry.shops[url].barbers[i].schedule;
              && var k := AppointmentById(before, appointmentId).value;
              && |after| == |before|
              && (forall m :: 0 <= m < |before| && m != k ==> after[m] == before[m])
              && after[k] == Appointment(before[k].id, client, dateTime.value, serviceType)
              && after[k].id == appointmentId
              && r.result.value == after
  {
    if !ClientGiven(client) || dateTime.None? || !Present(serviceType) then Reply(reg, Failure(InvalidInput))
    else if url !in reg.shops then Reply(reg, Failure(NotFound))
    else
      var shop := reg.shops[url];
      match BarberById(shop.barbers, barberId)
      case None => Reply(reg, Failure(NotFound))
      case Some(i) =>
        var b := shop.barbers[i];
        match AppointmentById(b.schedule, appointmentId)
        case None => Reply(reg, Failure(NotFound))
        case Some(k) =>
          var schedule := b.schedule[k := b.schedule[k].(client := client, dateTime := dateTime.value, serviceType := serviceType)];
          var shop' := shop.(barbers := shop.barbers[i := b.(schedule := schedule)]);
          Reply(reg.(shops := reg.shops[url := shop']), Success(schedule))
  }

  /** DELETE /:url/barbers/:barberId/appointments/:appointmentId: removes the first
      appointment with that id; replies with the remaining schedule. */
  function DeleteAppointment(reg: Registry, url: string, barberId: Id, appointmentId: Id): (r: Reply<seq<Appointment>>)
    ensures r.result.Failure? ==> r.registry == reg && r.result.error == NotFound
    ensures r.result.Failure? <==>
              || url !in reg.shops
              || BarberById(reg.shops[url].barbers, barberId).None?
              || AppointmentById(reg.shops[url].barbers[BarberById(reg.shops[url].barbers, barberId).value].schedule,
                                 appointmentId).None?
    ensures r.result.Success? ==>
              && url in reg.shops
              && OnlyShopChanged(reg.shops, r.registry.shops, url)
              && r.registry.nextId == reg.nextId
              && var i := BarberById(reg.shops[url].barbers, barberId).value;
              && OnlyScheduleChanged(reg.shops[url], r.registry.shops[url], i)
              && var before := reg.shops[url].barbers[i].schedule;
              && var after := r.registry.shops[url].barbers[i].schedule;
              && var k := AppointmentById(before, appointmentId).value;
              && before[k].id == appointmentId
              && |after| == |before| - 1
              && (forall m :: 0 <= m < k ==> after[m] == before[m])
              && (forall m :: k <= m < |after| ==> after[m] == before[m + 1])
              && multiset(after) + multiset{before[k]} == multiset(before)
              && r.result.value == after
  {
    if url !in reg.shops then Reply(reg, Failure(NotFound))
    else
      var shop := reg.shops[url];
      match BarberById(shop.barbers, barberId)
      case None => Reply(reg, Failure(NotFound))
      case Some(i) =>
        var b := shop.barbers[i];
        match AppointmentById(b.schedule, appointmentId)
        case None => Reply(reg, Failure(NotFound))
        case Some(k) =>
          var schedule := RemoveAt(b.schedule, k);
          var shop' := shop.(barbers := shop.barbers[i := b.(schedule := schedule)]);
          Reply(reg.(shops := reg.shops[url := shop']), Success(schedule))
  }
}
