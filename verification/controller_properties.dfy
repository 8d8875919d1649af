/** Properties that relate several controller calls, or a call and the registry invariant. */
module ControllerProperties {
  import opened Wrappers
  import opened Seqs
  import opened BarberShopSchema
  import opened BarberShopController

  // ---------------------------------------------------------------------------------------
  // The open-slot filter.

  /** A slot is listed exactly when some entry without a client projects to it. */
  lemma {:induction false} OpenSlotsMembership(sch: seq<Appointment>, x: Slot)
    ensures x in OpenSlots(sch) <==>
              exists j :: 0 <= j < |sch| && sch[j].client.None? && x == Slot(sch[j].dateTime, sch[j].serviceType)
  {
    if |sch| > 0 {
      var init := sch[..|sch| - 1];
      OpenSlotsMembership(init, x);
      assert forall j :: 0 <= j < |init| ==> init[j] == sch[j];
      if x in OpenSlots(sch) && x !in OpenSlots(init) {
        assert sch[|sch| - 1].client.None? && x == Slot(sch[|sch| - 1].dateTime, sch[|sch| - 1].serviceType);
      }
    }
  }

  /** The filter keeps schedule order: it distributes over concatenation. */
  lemma {:induction false} OpenSlotsAppend(a: seq<Appointment>, b: seq<Appointment>)
    ensures OpenSlots(a + b) == OpenSlots(a) + OpenSlots(b)
  {
    if |b| == 0 {
      assert a + b == a;
    } else {
      var b' := b[..|b| - 1];
      assert (a + b)[..|a + b| - 1] == a + b';
      OpenSlotsAppend(a, b');
    }
  }

  /** A schedule whose every entry has a client offers no open slot. */
  lemma {:induction false} BookedScheduleHasNoOpenSlots(sch: seq<Appointment>)
    requires forall k :: 0 <= k < |sch| ==> sch[k].client.Some?
    ensures OpenSlots(sch) == []
  {
    if |sch| > 0 {
      BookedScheduleHasNoOpenSlots(sch[..|sch| - 1]);
    }
  }

  /** Stored appointments always have a client, so the schedule query of a stored shop is empty. */
  lemma StoredScheduleHasNoOpenSlots(reg: Registry, url: string, barberId: Id)
    requires Inv(reg)
    ensures GetBarberSchedule(reg, url, barberId).Success? ==>
              GetBarberSchedule(reg, url, barberId).value.availableSlots == []
  {
    if GetBarberSchedule(reg, url, barberId).Success? {
      var bs := reg.shops[url].barbers;
      var i := BarberById(bs, barberId).value;
      assert BarberValid(bs[i]);
      BookedScheduleHasNoOpenSlots(bs[i].schedule);
    }
  }

  // ---------------------------------------------------------------------------------------
  // The registry invariant is kept by every handler.

  lemma BarberInvMonotone(b: Barber, bound: nat, bound': nat)
    requires BarberInv(b, bound) && bound <= bound'
    ensures BarberInv(b, bound')
  {
  }

  lemma ShopInvMonotone(s: Shop, bound: nat, bound': nat)
    requires ShopInv(s, bound) && bound <= bound'
    ensures ShopInv(s, bound')
  {
    forall i | 0 <= i < |s.barbers|
      ensures BarberInv(s.barbers[i], bound')
    {
      BarberInvMonotone(s.barbers[i], bound, bound');
    }
  }

  /** A handler that rewrites at most the shop at `url` (keeping it consistent) and does not
      lower the id bound keeps the registry invariant. */
  lemma InvAfterShopUpdate(reg: Registry, reg': Registry, url: string)
    requires Inv(reg) && reg.nextId <= reg'.nextId
    requires forall u :: u in reg'.shops && u != url ==> u in reg.shops && reg'.shops[u] == reg.shops[u]
    requires url in reg'.shops ==> reg'.shops[url].url == url && ShopInv(reg'.shops[url], reg'.nextId)
    ensures Inv(reg')
  {
    forall u | u in reg'.shops
      ensures reg'.shops[u].url == u && ShopInv(reg'.shops[u], reg'.nextId)
    {
      if u != url {
        ShopInvMonotone(reg.shops[u], reg.nextId, reg'.nextId);
      }
    }
  }

  /** Rewriting one barber's schedule into one that keeps the barber invariant keeps the shop's. */
  lemma ShopInvAfterScheduleChange(s: Shop, s': Shop, i: nat, bound: nat, bound': nat)
    requires ShopInv(s, bound) && bound <= bound'
    requires OnlyScheduleChanged(s, s', i)
    requires BarberInv(s'.barbers[i], bound')
    ensures ShopInv(s', bound')
  {
    forall j | 0 <= j < |s'.barbers|
      ensures BarberInv(s'.barbers[j], bound')
    {
      if j != i {
        BarberInvMonotone(s.barbers[j], bound, bound');
      }
    }
  }

  lemma CreateBarberShopPreservesInv(reg: Registry, ownerId: Id, name: string, url: string)
    requires Inv(reg)
    ensures Inv(CreateBarberShop(reg, ownerId, name, url).registry)
  {
    var r := CreateBarberShop(reg, ownerId, name, url);
    if r.result.Success? {
      InvAfterShopUpdate(reg, r.registry, url);
    }
  }

  lemma CreateBarberPreservesInv(reg: Registry, url: string, barberName: string)
    requires Inv(reg)
    ensures Inv(CreateBarber(reg, url, barberName).registry)
  {
    var r := CreateBarber(reg, url, barberName);
    if r.result.Success? {
      var before := reg.shops[url];
      var after := r.registry.shops[url];
      var n := |before.barbers|;
      forall j | 0 <= j < |after.barbers|
        ensures BarberInv(after.barbers[j], r.registry.nextId)
      {
        if j < n {
          BarberInvMonotone(before.barbers[j], reg.nextId, r.registry.nextId);
        }
      }
      assert DistinctBarberNames(after.barbers);
      assert DistinctBarberIds(after.barbers);
      InvAfterShopUpdate(reg, r.registry, url);
    }
  }

  lemma CreateAppointmentPreservesInv(reg: Registry, url: string, barberName: string,
                                      client: Option<Client>, dateTime: Option<int>, serviceType: string)
    requires Inv(reg)
    ensures Inv(CreateAppointment(reg, url, barberName, client, dateTime, serviceType).registry)
  {
    var r := CreateAppointment(reg, url, barberName, client, dateTime, serviceType);
    if r.result.Success? {
      var before := reg.shops[url];
      var after := r.registry.shops[url];
      var i := BarberByName(before.barbers, barberName).value;
      assert BarberInv(before.barbers[i], reg.nextId);
      assert BarberInv(after.barbers[i], r.registry.nextId);
      ShopInvAfterScheduleChange(before, after, i, reg.nextId, r.registry.nextId);
      InvAfterShopUpdate(reg, r.registry, url);
    }
  }

  lemma UpdateAppointmentPreservesInv(reg: Registry, url: string, barberId: Id, appointmentId: Id,
                                      client: Option<Client>, dateTime: Option<int>, serviceType: string)
    requires Inv(reg)
    ensures Inv(UpdateAppointment(reg, url, barberId, appointmentId, client, dateTime, serviceType).registry)
  {
    var r := UpdateAppointment(reg, url, barberId, appointmentId, client, dateTime, serviceType);
    if r.result.Success? {
      var before := reg.shops[url];
      var after := r.registry.shops[url];
      var i := BarberById(before.barbers, barberId).value;
      assert BarberInv(before.barbers[i], reg.nextId);
      assert BarberInv(after.barbers[i], r.registry.nextId);
      ShopInvAfterScheduleChange(before, after, i, reg.nextId, r.registry.nextId);
      InvAfterShopUpdate(reg, r.registry, url);
    }
  }

  lemma DeleteAppointmentPreservesInv(reg: Registry, url: string, barberId: Id, appointmentId: Id)
    requires Inv(reg)
    ensures Inv(DeleteAppointment(reg, url, barberId, appointmentId).registry)
  {
    var r := DeleteAppointment(reg, url, barberId, appointmentId);
    if r.result.Success? {
      var before := reg.shops[url];
      var after := r.registry.shops[url];
      var i := BarberById(before.barbers, barberId).value;
      var sch := before.barbers[i].schedule;
      var sch' := after.barbers[i].schedule;
      var k := AppointmentById(sch, appointmentId).value;
      assert forall m :: 0 <= m < |sch'| ==> sch'[m] == sch[if m < k then m else m + 1];
      assert BarberInv(before.barbers[i], reg.nextId);
      assert BarberInv(after.barbers[i], r.registry.nextId);
      ShopInvAfterScheduleChange(before, after, i, reg.nextId, r.registry.nextId);
      InvAfterShopUpdate(reg, r.registry, url);
    }
  }

  // ---------------------------------------------------------------------------------------
  // Sequences of calls.

  /** A created shop is found under its url with the given name and no barbers, and any
      later creation under the same url is refused as a duplicate. */
  lemma CreateThenGetShop(reg: Registry, ownerId: Id, name: string, url: string, otherOwner: Id, otherName: string)
    requires CreateBarberShop(reg, ownerId, name, url).result.Success?
    requires Present(otherName)
    ensures var r := CreateBarberShop(reg, ownerId, name, url);
            && GetBarberShop(r.registry, url) == Success(r.result.value)
            && r.result.value.name == name && r.result.value.barbers == []
            && CreateBarberShop(r.registry, otherOwner, otherName, url) == Reply(r.registry, Failure(Duplicate))
  {
  }

  /** Adding the same barber name twice: the second call is refused and leaves the list as it was. */
  lemma CreateBarberRejectsRepeat(reg: Registry, url: string, barberName: string)
    requires CreateBarber(reg, url, barberName).result.Success?
    ensures var reg' := CreateBarber(reg, url, barberName).registry;
            CreateBarber(reg', url, barberName) == Reply(reg', Failure(Duplicate))
  {
    var reg' := CreateBarber(reg, url, barberName).registry;
    var bs := reg'.shops[url].barbers;
    assert bs[|bs| - 1].name == barberName;
  }

  /** The barber listing after a successful creation is the old listing plus the new barber. */
  lemma GetBarbersAfterCreateBarber(reg: Registry, url: string, barberName: string)
    requires CreateBarber(reg, url, barberName).result.Success?
    ensures var reg' := CreateBarber(reg, url, barberName).registry;
            && GetBarbers(reg, url).Success?
            && GetBarbers(reg', url) == Success(GetBarbers(reg, url).value + [BarberSummary(reg.nextId, barberName)])
  {
    var reg' := CreateBarber(reg, url, barberName).registry;
    var before := GetBarbers(reg, url).value;
    var after := GetBarbers(reg', url).value;
    assert after == before + [BarberSummary(reg.nextId, barberName)];
  }

  /** A booking always carries a client, so creating one never changes the open slots. */
  lemma CreateAppointmentKeepsOpenSlots(reg: Registry, url: string, barberName: string,
                                        client: Option<Client>, dateTime: Option<int>, serviceType: string)
    requires CreateAppointment(reg, url, barberName, client, dateTime, serviceType).result.Success?
    ensures var r := CreateAppointment(reg, url, barberName, client, dateTime, serviceType);
            var i := BarberByName(reg.shops[url].barbers, barberName).value;
            OpenSlots(r.result.value) == OpenSlots(reg.shops[url].barbers[i].schedule)
  {
    var r := CreateAppointment(reg, url, barberName, client, dateTime, serviceType);
    var i := BarberByName(reg.shops[url].barbers, barberName).value;
    var before := reg.shops[url].barbers[i].schedule;
    var added := Appointment(reg.nextId, client, dateTime.value, serviceType);
    assert r.result.value == before + [added];
    OpenSlotsAppend(before, [added]);
    assert [added][..0] == [];
  }

  /** No double-booking check: booking the same barber at the same instant twice succeeds
      both times, and the schedule then ends with two entries at that instant. */
  lemma DoubleBookingAccepted(reg: Registry, url: string, barberName: string,
                              client: Option<Client>, dateTime: Option<int>, serviceType: string)
    requires CreateAppointment(reg, url, barberName, client, dateTime, serviceType).result.Success?
    ensures var first := CreateAppointment(reg, url, barberName, client, dateTime, serviceType);
            var second := CreateAppointment(first.registry, url, barberName, client, dateTime, serviceType);
            && second.result.Success?
            && var s := second.result.value;
            && |s| >= 2
            && s[|s| - 2].dateTime == dateTime.value
            && s[|s| - 1].dateTime == dateTime.value
  {
    var first := CreateAppointment(reg, url, barberName, client, dateTime, serviceType);
    var i := BarberByName(reg.shops[url].barbers, barberName).value;
    var bs' := first.registry.shops[url].barbers;
    assert bs'[i].name == barberName;
    assert BarberByName(bs', barberName).value == i;
  }

  /** Deleting an appointment twice: with ids unique, the second call finds nothing. */
  lemma DeleteTwiceFails(reg: Registry, url: string, barberId: Id, appointmentId: Id)
    requires Inv(reg)
    requires DeleteAppointment(reg, url, barberId, appointmentId).result.Success?
    ensures var reg' := DeleteAppointment(reg, url, barberId, appointmentId).registry;
            DeleteAppointment(reg', url, barberId, appointmentId) == Reply(reg', Failure(NotFound))
  {
    var reg' := DeleteAppointment(reg, url, barberId, appointmentId).registry;
    var bs := reg.shops[url].barbers;
    var bs' := reg'.shops[url].barbers;
    var i := BarberById(bs, barberId).value;
    assert BarberById(bs', barberId).value == i;
    var sch := bs[i].schedule;
    var sch' := bs'[i].schedule;
    var k := AppointmentById(sch, appointmentId).value;
    assert BarberInv(bs[i], reg.nextId);
    forall m | 0 <= m < |sch'|
      ensures sch'[m].id != appointmentId
    {
      if m >= k {
        assert sch'[m] == sch[m + 1];
      }
    }
  }

  /** A barber keeps its position under lookup by id when only schedules changed. */
  lemma BarberByIdStable(bs: seq<Barber>, bs': seq<Barber>, i: nat)
    requires DistinctBarberIds(bs) && i < |bs|
    requires |bs'| == |bs| && forall j :: 0 <= j < |bs| ==> bs'[j].id == bs[j].id
    ensures BarberById(bs', bs[i].id) == Some(i)
  {
  }

  /** An appointment carrying a fresh id is found at the end of the schedule it was appended
      to, and removing it gives the schedule back. */
  lemma FreshAppointmentFoundLast(sch: seq<Appointment>, a: Appointment, bound: nat)
    requires ScheduleIdsBelow(sch, bound) && a.id == bound
    ensures AppointmentById(sch + [a], bound) == Some(|sch|)
    ensures RemoveAt(sch + [a], |sch|) == sch
  {
    var s' := sch + [a];
    assert forall m :: 0 <= m < |sch| ==> s'[m].id != bound;
    assert RemoveAt(s', |sch|) == s'[..|sch|];
  }

  /** Deleting the appointment a booking just created restores every shop as it was. */
  lemma DeleteUndoesCreate(reg: Registry, url: string, barberName: string,
                           client: Option<Client>, dateTime: Option<int>, serviceType: string)
    requires Inv(reg)
    requires CreateAppointment(reg, url, barberName, client, dateTime, serviceType).result.Success?
    ensures var c := CreateAppointment(reg, url, barberName, client, dateTime, serviceType);
            var b := reg.shops[url].barbers[BarberByName(reg.shops[url].barbers, barberName).value];
            var d := DeleteAppointment(c.registry, url, b.id, reg.nextId);
            && d.result == Success(b.schedule)
            && d.registry.shops == reg.shops
  {
    var c := CreateAppointment(reg, url, barberName, client, dateTime, serviceType);
    var shop := reg.shops[url];
    var shop' := c.registry.shops[url];
    var i := BarberByName(shop.barbers, barberName).value;
    var b := shop.barbers[i];
    assert ShopInv(shop, reg.nextId);
    assert BarberInv(b, reg.nextId);
    BarberByIdStable(shop.barbers, shop'.barbers, i);
    var a := Appointment(reg.nextId, client, dateTime.value, serviceType);
    assert shop'.barbers[i].schedule == b.schedule + [a];
    FreshAppointmentFoundLast(b.schedule, a, reg.nextId);
    var d := DeleteAppointment(c.registry, url, b.id, reg.nextId);
    assert d.result.value == b.schedule;
    assert d.registry.shops[url].barbers == shop.barbers;
    assert d.registry.shops[url] == shop;
  }

  /** Repeating an update with the same data changes nothing further. */
  lemma UpdateIdempotent(reg: Registry, url: string, barberId: Id, appointmentId: Id,
                         client: Option<Client>, dateTime: Option<int>, serviceType: string)
    requires UpdateAppointment(reg, url, barberId, appointmentId, client, dateTime, serviceType).result.Success?
    ensures var first := UpdateAppointment(reg, url, barberId, appointmentId, client, dateTime, serviceType);
            UpdateAppointment(first.registry, url, barberId, appointmentId, client, dateTime, serviceType) == first
  {
    var first := UpdateAppointment(reg, url, barberId, appointmentId, client, dateTime, serviceType);
    var bs := reg.shops[url].barbers;
    var bs' := first.registry.shops[url].barbers;
    var i := BarberById(bs, barberId).value;
    assert BarberById(bs', barberId).value == i;
    var sch := bs[i].schedule;
    var sch' := bs'[i].schedule;
    var k := AppointmentById(sch, appointmentId).value;
    assert AppointmentById(sch', appointmentId).value == k;
    var second := UpdateAppointment(first.registry, url, barberId, appointmentId, client, dateTime, serviceType);
    assert second.result.value == sch';
    assert second.registry.shops[url].barbers == bs';
    assert second.registry.shops[url] == first.registry.shops[url];
  }

  /** An end-to-end walk-through, as the handlers behave: create a shop, add a barber, book an
      appointment, list, query open slots, delete the booking. */
  lemma WalkThrough(ownerId: Id)
    ensures var r0 := Registry(map[], 0);
            var r1 := CreateBarberShop(r0, ownerId, "Joe's Cuts", "joes-cuts");
            var r2 := CreateBarber(r1.registry, "joes-cuts", "Marco");
            var r3 := CreateAppointment(r2.registry, "joes-cuts", "Marco", Some(Client("Sam", "555-1111")), Some(1709283600), "Haircut");
            var r4 := DeleteAppointment(r3.registry, "joes-cuts", 1, 2);
            && r1.result.Success? && r2.result.Success? && r3.result.Success?
            && GetBarbers(r3.registry, "joes-cuts") == Success([BarberSummary(1, "Marco")])
            && GetBarberSchedule(r3.registry, "joes-cuts", 1) == Success(ScheduleView("Marco", []))
            && r4.result == Success([])
            && GetBarberSchedule(r4.registry, "joes-cuts", 1) == Success(ScheduleView("Marco", []))
  {
    var url := "joes-cuts";
    var appt := Appointment(2, Some(Client("Sam", "555-1111")), 1709283600, "Haircut");
    var s1 := Shop(0, "Joe's Cuts", ownerId, url, Inactive, []);
    var s2 := s1.(barbers := [Barber(1, "Marco", [])]);
    var s3 := s1.(barbers := [Barber(1, "Marco", [appt])]);
    var r1 := CreateBarberShop(Registry(map[], 0), ownerId, "Joe's Cuts", url);
    assert r1.result.Success? && r1.registry.shops[url] == s1 && r1.registry.nextId == 1;
    var r2 := CreateBarber(r1.registry, url, "Marco");
    WalkAddBarber(r1.registry, s1, s2);
    var r3 := CreateAppointment(r2.registry, url, "Marco", Some(Client("Sam", "555-1111")), Some(1709283600), "Haircut");
    WalkBook(r2.registry, s2, s3, appt);
    WalkRead(r3.registry, s3, appt);
    var r4 := DeleteAppointment(r3.registry, url, 1, 2);
    WalkDelete(r3.registry, s3, s2, appt);
    WalkRead(r4.registry, s2, appt);
  }

  lemma WalkAddBarber(reg: Registry, s1: Shop, s2: Shop)
    requires "joes-cuts" in reg.shops && reg.shops["joes-cuts"] == s1 && reg.nextId == 1
    requires s1.barbers == [] && s2 == s1.(barbers := [Barber(1, "Marco", [])])
    ensures var r := CreateBarber(reg, "joes-cuts", "Marco");
            r.result.Success? && r.registry.shops["joes-cuts"] == s2 && r.registry.nextId == 2
  {
    assert [] + [Barber(1, "Marco", [])] == s2.barbers;
  }

  lemma WalkBook(reg: Registry, s2: Shop, s3: Shop, appt: Appointment)
    requires "joes-cuts" in reg.shops && reg.shops["joes-cuts"] == s2 && reg.nextId == 2
    requires s2.barbers == [Barber(1, "Marco", [])]
    requires appt == Appointment(2, Some(Client("Sam", "555-1111")), 1709283600, "Haircut")
    requires s3 == s2.(barbers := [Barber(1, "Marco", [appt])])
    ensures var r := CreateAppointment(reg, "joes-cuts", "Marco", Some(Client("Sam", "555-1111")), Some(1709283600), "Haircut");
            r.result.Success? && r.registry.shops["joes-cuts"] == s3 && r.registry.nextId == 3
  {
    assert BarberByName(s2.barbers, "Marco") == Some(0);
    assert [] + [appt] == [appt];
  }

  lemma WalkRead(reg: Registry, s: Shop, appt: Appointment)
    requires "joes-cuts" in reg.shops && reg.shops["joes-cuts"] == s
    requires appt.client.Some?
    requires s.barbers == [Barber(1, "Marco", [appt])] || s.barbers == [Barber(1, "Marco", [])]
    ensures GetBarbers(reg, "joes-cuts") == Success([BarberSummary(1, "Marco")])
    ensures GetBarberSchedule(reg, "joes-cuts", 1) == Success(ScheduleView("Marco", []))
  {
    assert GetBarbers(reg, "joes-cuts").value == [BarberSummary(1, "Marco")];
    assert BarberById(s.barbers, 1) == Some(0);
    BookedScheduleHasNoOpenSlots(s.barbers[0].schedule);
  }

  lemma WalkDelete(reg: Registry, s3: Shop, s2: Shop, appt: Appointment)
    requires "joes-cuts" in reg.shops && reg.shops["joes-cuts"] == s3
    requires appt.id == 2
    requires s3.barbers == [Barber(1, "Marco", [appt])] && s2 == s3.(barbers := [Barber(1, "Marco", [])])
    ensures var r := DeleteAppointment(reg, "joes-cuts", 1, 2);
            r.result == Success([]) && r.registry.shops["joes-cuts"] == s2
  {
    assert BarberById(s3.barbers, 1) == Some(0);
    assert AppointmentById([appt], 2) == Some(0);
    assert RemoveAt([appt], 0) == [];
  }
}
