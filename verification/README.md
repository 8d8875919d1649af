# Barbershop booking backend — Dafny model

A model of the core of a barbershop booking backend: the shop/barber/appointment aggregate
stored as one document per shop, the controller handlers that create and read shops, add
barbers and create, list, update and delete appointments, the billing gate that lets a caller
through only when their latest payment is paid, and e-mail keyed registration and login.

Everything is a pure function over immutable datatypes:

- `wrappers.dfy` — `Option` and `Result`.
- `seqs.dfy` — first-match search (`Array.find`/`findIndex`) and removal at a position (`splice(i, 1)`).
- `barber_shop.dfy` (`BarberShopSchema`) — `Client`, `Appointment`, `Barber`, `Shop`, the `status`
  enum and its default, the schema's required-field constraints (`ShopValid`), and the invariant
  every stored shop keeps (`ShopInv`: schema constraints, distinct barber names, distinct ids,
  ids below the id supply).
- `barber_shop_controller.dfy` (`BarberShopController`) — the registry (a map from url to shop,
  so urls are unique by construction, plus an id supply) and one function per handler. Each
  handler returns a `Reply`: the registry afterwards and either the payload or an error kind
  (`InvalidInput`, `NotFound`, `Duplicate`).
- `controller_properties.dfy` (`ControllerProperties`) — invariant preservation, the open-slot
  filter, and lemmas relating successive calls.
- `payment_gate.dfy` (`PaymentGate`) — the payment record, its default status, and the gate.
- `auth.dfy` (`Auth`) — register and login over the users keyed by e-mail.

Modelling choices:

- A request field the handler tests for falsiness is modelled as absent when it is the empty
  string (`barberName`, `serviceType`, client name and phone), as `None` for the `client` object,
  and as `None` for `dateTime`. Timestamps are integers.
- New shops, barbers and appointments take their `_id` from the registry's `nextId`, which then
  advances. This stands in for the database's id generator.
- Lookups take the first match of a linear scan, as `find` and `findIndex` do.
- `createBarberShop` answers 400 for any save error. The model splits this into `InvalidInput`
  when a required field (name, url) is empty, and `Duplicate` when the url is taken. Schema
  validation runs before the insert, so `InvalidInput` wins when both apply.
- The model follows the code where a stricter behaviour might be expected:
  - creating an appointment never checks for a booking at the same instant (`DoubleBookingAccepted`);
  - no handler compares the shop's owner with the caller;
  - there is no remove-barber handler;
  - login returns only a token and does not look up the caller's shop;
  - `Duplicate` stands for the code's 400 answers to a barber name or url already taken; it is kept apart from `InvalidInput`, the 400 answer to missing fields.
- The billing gate keys the payment lookup on the caller's user id, not on a shop id, as the
  code does.
- `comparePassword` and the token issuer are function parameters of `Auth.Login`/`Auth.Register`. The issuer takes only the user id; the issue time and expiry that signing stamps into a token are folded into the issuer passed to each call, so two calls may use different issuers.

## Model

| member | source | states |
|---|---|---|
| Seqs.FirstIndex | src/controllers/barberShopController.js:159-160 | the index returned satisfies the predicate and no earlier element does; none is returned exactly when no element satisfies it |
| Seqs.RemoveAt | src/controllers/barberShopController.js:163 | the result is one shorter, keeps the elements before the position, shifts the later ones down by one, and as a multiset lacks exactly the removed element |
| BarberShopController.CreateBarberShop | src/controllers/barberShopController.js:4-14 | empty name or url fails InvalidInput, a taken url fails Duplicate, both leave the registry unchanged; on success the new shop has the caller as owner, the given name and url, status inactive, no barbers, a fresh id, and every other shop is untouched |
| BarberShopController.GetBarberShop | src/controllers/barberShopController.js:16-25 | succeeds exactly when a shop is stored under that url and returns it; otherwise NotFound |
| BarberShopController.CreateBarber | src/controllers/barberShopController.js:27-51 | empty name fails InvalidInput before the lookup; unknown url fails NotFound; a name already present fails Duplicate; failures change nothing; success appends exactly one barber with that name, a fresh id and an empty schedule at the end, keeps earlier barbers and other shops, and returns the whole list |
| BarberShopController.CreateAppointment | src/controllers/barberShopController.js:53-75 | any missing barber name, client, client name or phone, dateTime or service type fails InvalidInput regardless of the registry; an unknown shop or barber name fails NotFound; success appends exactly one appointment with a fresh id to the first barber of that name and changes nothing else |
| BarberShopController.GetBarbers | src/controllers/barberShopController.js:77-93 | one id/name pair per barber, same length and order; NotFound for an unknown url |
| BarberShopController.GetBarberSchedule | src/controllers/barberShopController.js:95-116 | NotFound exactly when the url or the barber id is unknown; otherwise the barber's name and the open slots of its schedule, never more than the schedule holds |
| BarberShopController.BarberByName | src/controllers/barberShopController.js:39 | the index returned is a barber with exactly that name and no earlier barber has it; none exactly when no barber has the name |
| BarberShopController.BarberById | src/controllers/barberShopController.js:130 | the index returned is a barber with that id and no earlier barber has it; none exactly when no barber has the id |
| BarberShopController.AppointmentById | src/controllers/barberShopController.js:133 | the index returned is an appointment with that id and no earlier entry has it; none exactly when no entry has the id |
| BarberShopController.OpenSlots | src/controllers/barberShopController.js:104-109 | the projected open slots are never more than the schedule's entries |
| BarberShopController.UpdateAppointment | src/controllers/barberShopController.js:118-147 | missing client/name/phone/dateTime/service type fails InvalidInput before any lookup; unknown url, barber id or appointment id fails NotFound with no change; success replaces client, dateTime and service type of the matched appointment only, keeping its id, its position, the schedule length, the other appointments, barbers and shops |
| BarberShopController.DeleteAppointment | src/controllers/barberShopController.js:149-171 | NotFound with no change exactly when the url, barber id or appointment id is unknown; success removes the first entry with that id, shortens the schedule by one, keeps the order of the rest and touches nothing else |
| BarberShopSchema.ShopInvIsValid | src/models/barberShop.js:4-29 | a shop meeting the stored-shop invariant meets every required-field constraint of the schema |
| ControllerProperties.OpenSlotsMembership | src/controllers/barberShopController.js:104-109 | a slot is listed exactly when some schedule entry without a client has that dateTime and service type |
| ControllerProperties.OpenSlotsAppend | src/controllers/barberShopController.js:104-109 | the filter distributes over concatenation, so schedule order is preserved |
| ControllerProperties.BookedScheduleHasNoOpenSlots | src/controllers/barberShopController.js:104-105 | a schedule whose entries all have a client yields no open slot |
| ControllerProperties.StoredScheduleHasNoOpenSlots | src/models/barberShop.js:10-14 | since the schema requires a client on every stored appointment, the schedule query on a stored shop always returns no slots |
| ControllerProperties.CreateBarberShopPreservesInv | src/models/barberShop.js:23-29 | creating a shop keeps every stored shop under its own url and meeting the invariant |
| ControllerProperties.CreateBarberPreservesInv | src/controllers/barberShopController.js:39-45 | adding a barber keeps barber names and ids pairwise distinct and the schema satisfied |
| ControllerProperties.CreateAppointmentPreservesInv | src/controllers/barberShopController.js:58-69 | a created appointment meets the schema and its id is distinct from every other in the schedule |
| ControllerProperties.UpdateAppointmentPreservesInv | src/controllers/barberShopController.js:123-141 | an update keeps the schema satisfied and the ids distinct |
| ControllerProperties.DeleteAppointmentPreservesInv | src/controllers/barberShopController.js:159-165 | a deletion keeps the schema satisfied and the ids distinct |
| ControllerProperties.CreateThenGetShop | src/controllers/barberShopController.js:4-25 | a created shop is then found under its url with its name and no barbers, and a second creation with that url fails Duplicate without change |
| ControllerProperties.CreateBarberRejectsRepeat | src/controllers/barberShopController.js:39-42 | adding the same barber name again fails Duplicate and leaves the registry as it was |
| ControllerProperties.GetBarbersAfterCreateBarber | src/controllers/barberShopController.js:83-86 | after adding a barber the listing is the previous listing followed by the new barber's id and name |
| ControllerProperties.CreateAppointmentKeepsOpenSlots | src/controllers/barberShopController.js:68 | a booking always carries a client, so the barber's open slots are the same before and after |
| ControllerProperties.DoubleBookingAccepted | src/controllers/barberShopController.js:65-69 | booking the same barber at the same instant twice succeeds both times and leaves two entries at that instant |
| ControllerProperties.DeleteTwiceFails | src/controllers/barberShopController.js:159-163 | with ids unique, deleting the same appointment a second time fails NotFound without change |
| ControllerProperties.DeleteUndoesCreate | src/controllers/barberShopController.js:159-163 | deleting the appointment just created, by its barber's id and the new id, returns the original schedule and restores every shop |
| ControllerProperties.UpdateIdempotent | src/controllers/barberShopController.js:133-139 | repeating a successful update with the same data yields the same registry and reply |
| ControllerProperties.WalkThrough | src/controllers/barberShopController.js:4-171 | create shop, add barber, book, list, query slots, delete: one barber listed, no open slots, empty schedule at the end |
| PaymentGate.NewPayment | src/models/payment.js:3-7 | a payment stored without a status is pending; otherwise it keeps the given one |
| PaymentGate.Latest | src/middleware/paymentMiddleware.js:5 | the chosen record belongs to the key and no record of that key has a later due date; none only when the key has no record |
| PaymentGate.LatestRecord | src/middleware/paymentMiddleware.js:5 | the record returned belongs to the key and no record of that key has a later due date; none exactly when the key has no record |
| PaymentGate.Gate | src/middleware/paymentMiddleware.js:3-13 | no record refuses; passing implies a latest record is paid; all latest records paid passes; no latest record paid refuses, even when an older one is paid |
| PaymentGate.GateOnlyConsultsKey | src/middleware/paymentMiddleware.js:5 | the decision equals the decision over just the records whose barberShopId is the caller's user id |
| PaymentGate.OlderRecordIgnored | src/middleware/paymentMiddleware.js:5 | adding a record older than one already stored for the key does not change the decision |
| PaymentGate.OtherKeyIgnored | src/middleware/paymentMiddleware.js:5 | adding a record of another key does not change the decision |
| PaymentGate.NewerDefaultPaymentCloses | src/middleware/paymentMiddleware.js:5-7 | a newest record stored without a status closes the gate whatever the older records say |
| PaymentGate.NewerPaidPaymentOpens | src/middleware/paymentMiddleware.js:5-11 | a newest paid record opens the gate whatever the older records say |
| Auth.Register | src/controllers/authController.js:5-27 | a taken e-mail fails with no change; otherwise exactly one user is added under that e-mail with a fresh id, the others are untouched, and the token is issued for the new id |
| Auth.Login | src/controllers/authController.js:29-52 | succeeds exactly when the e-mail is stored and the password check accepts; every failure is the same invalid-credentials answer; the token is issued for the stored user's id |
| Auth.RegisterPreservesInv | src/controllers/authController.js:10-17 | users stay stored under their own e-mails with distinct ids |
| Auth.RegisterTwiceRefused | src/controllers/authController.js:10-13 | registering an e-mail a second time fails and stores nothing |
| Auth.RegisterThenLogin | src/controllers/authController.js:16-49 | a fresh user whose password check accepts logs in; the registration token and the login token, each from its own call's issuer, are both issued for the new user's id |
| Auth.LoginFailuresIndistinguishable | src/controllers/authController.js:34-43 | an unknown e-mail and a wrong password give equal answers |

## Left out

- HTTP routing, status codes beyond the error kind, response messages, and API documentation.
- The 500 answers from the `catch` blocks: persistence failures and exceptions are not modelled.
- Persistence and the race between the lookup and the save of concurrent requests.
- The payment middleware's stray lines after its export, and the fact that it is not mounted on any route.
- Remove-barber: a route names a handler the controller does not define.
- Owner checks and shop-aware login: the code performs neither.
- Date parsing and time zones: `dateTime` and `dueDate` are integer timestamps, so a malformed date string is not modelled.
- A JavaScript falsy `dateTime` such as the number 0 counts as present here.
- Request fields are assumed to be strings. A JSON number as `barberName` behaves differently in the code: the duplicate check compares the raw value with `===`, but the schema stores it as a string, so `{"barberName": 5}` sent twice stores two barbers named "5", and booking with `barberName: 5` answers NotFound even when a barber "5" exists. Distinct barber names (`DistinctBarberNames`, kept by `CreateBarberPreservesInv`) therefore hold in the code only for string requests.
- PaymentGate.Latest: among payments with equal due dates the store may return any; the model keeps the earliest stored. The properties hold for every choice.
- Password hashing, the password comparison and JWT signing and expiry: parameters of the model.
- ControllerProperties.UpdateIdempotent: the client sub-document's generated `_id` is not modelled. Each update stores the request's client as a new sub-document with a fresh `_id`, which appears in the stored shop and in the reply, so repeating an update is idempotent only up to that id.
- The user model is not part of this model, so its own field validation is left out.
