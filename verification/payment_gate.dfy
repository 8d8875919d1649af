/** The billing decision of the payment middleware: the caller's most recent payment,
    by due date, must be paid. */
module PaymentGate {
  import opened Wrappers

  datatype PaymentStatus = Paid | Pending

  /** The value `status` takes when a payment is stored without one. */
  const DefaultPaymentStatus: PaymentStatus := Pending

  /** A payment document. Due dates are timestamps. */
  datatype Payment = Payment(barberShopId: nat, dueDate: int, status: PaymentStatus)

  /** The gate's answer: hand the request on, or refuse it with 403 ("plan inactive"). */
  datatype Decision = Next | Forbidden

  /** A payment document as stored from the given fields, the status taking its default. */
  function NewPayment(barberShopId: nat, dueDate: int, status: Option<PaymentStatus>): (p: Payment)
    ensures p.barberShopId == barberShopId && p.dueDate == dueDate
    ensures status.None? ==> p.status == Pending
    ensures status.Some? ==> p.status == status.value
  {
    Payment(barberShopId, dueDate, if status.Some? then status.value else DefaultPaymentStatus)
  }

  /** `ps[j]` is a record for `key` whose due date no other record for `key` exceeds. */
  predicate IsLatest(ps: seq<Payment>, key: nat, j: int) {
    && 0 <= j < |ps|
    && ps[j].barberShopId == key
    && forall k :: 0 <= k < |ps| && ps[k].barberShopId == key ==> ps[k].dueDate <= ps[j].dueDate
  }

  /** The position of the record the query `findOne({ barberShopId: key }).sort({ dueDate: -1 })`
      returns. Among records sharing the greatest due date the store may return any; this one
      keeps the earliest stored, and nothing below depends on that choice. */
  function Latest(ps: seq<Payment>, key: nat): (r: Option<nat>)
    ensures r.None? <==> forall j :: 0 <= j < |ps| ==> ps[j].barberShopId != key
    ensures r.Some? ==> IsLatest(ps, key, r.value)
  {
    if |ps| == 0 then None
    else
      var rest := Latest(ps[..|ps| - 1], key);
      var p := ps[|ps| - 1];
      if p.barberShopId != key then rest
      else if rest.None? || ps[rest.value].dueDate < p.dueDate then Some(|ps| - 1)
      else rest
  }

  /** The record at that position. */
  function LatestRecord(ps: seq<Payment>, key: nat): (r: Option<Payment>)
    ensures r.None? <==> forall j :: 0 <= j < |ps| ==> ps[j].barberShopId != key
    ensures r.Some? ==> exists j :: IsLatest(ps, key, j) && ps[j] == r.value
  {
    match Latest(ps, key)
    case Some(j) => Some(ps[j])
    case None => None
  }

  /** The middleware's decision for a caller whose user id is `userId`: the records consulted
      are those whose `barberShopId` equals that user id. */
  function Gate(ps: seq<Payment>, userId: nat): (d: Decision)
    ensures (forall j :: 0 <= j < |ps| ==> ps[j].barberShopId != userId) ==> d == Forbidden
    ensures d == Next ==> exists j :: IsLatest(ps, userId, j) && ps[j].status == Paid
    ensures ((exists j :: IsLatest(ps, userId, j)) && forall j :: IsLatest(ps, userId, j) ==> ps[j].status == Paid)
              ==> d == Next
    ensures (forall j :: IsLatest(ps, userId, j) ==> ps[j].status != Paid) ==> d == Forbidden
  {
    match LatestRecord(ps, userId)
    case Some(p) => if p.status == Paid then Next else Forbidden
    case None => Forbidden
  }

  /** The records of `ps` that belong to `key`, in stored order. */
  function RecordsFor(ps: seq<Payment>, key: nat): (r: seq<Payment>)
    ensures |r| <= |ps|
    ensures forall k :: 0 <= k < |r| ==> r[k].barberShopId == key
    ensures forall p :: p in r <==> p in ps && p.barberShopId == key
  {
    if |ps| == 0 then []
    else
      var init := ps[..|ps| - 1];
      var rest := RecordsFor(init, key);
      assert ps == init + [ps[|ps| - 1]];
      if ps[|ps| - 1].barberShopId == key then rest + [ps[|ps| - 1]] else rest
  }

  /** Records of other keys never influence the scan. */
  lemma {:induction false} LatestOnlyConsultsKey(ps: seq<Payment>, key: nat)
    ensures LatestRecord(ps, key) == LatestRecord(RecordsFor(ps, key), key)
  {
    if |ps| > 0 {
      var init := ps[..|ps| - 1];
      LatestOnlyConsultsKey(init, key);
      var rs := RecordsFor(ps, key);
      if ps[|ps| - 1].barberShopId == key {
        assert rs[..|rs| - 1] == RecordsFor(init, key);
      }
    }
  }

  /** The decision depends only on the caller's own records. */
  lemma GateOnlyConsultsKey(ps: seq<Payment>, userId: nat)
    ensures Gate(ps, userId) == Gate(RecordsFor(ps, userId), userId)
  {
    LatestOnlyConsultsKey(ps, userId);
  }

  /** A record older than one already stored for the same key never changes the decision. */
  lemma OlderRecordIgnored(ps: seq<Payment>, userId: nat, p: Payment)
    requires exists j :: 0 <= j < |ps| && ps[j].barberShopId == userId && p.dueDate < ps[j].dueDate
    ensures Gate(ps + [p], userId) == Gate(ps, userId)
  {
    var ps' := ps + [p];
    assert ps'[..|ps'| - 1] == ps;
  }

  /** A record of another key never changes the decision. */
  lemma OtherKeyIgnored(ps: seq<Payment>, userId: nat, p: Payment)
    requires p.barberShopId != userId
    ensures Gate(ps + [p], userId) == Gate(ps, userId)
  {
    var ps' := ps + [p];
    assert ps'[..|ps'| - 1] == ps;
  }

  /** A newer payment stored without a status is pending and closes the gate, whatever the
      older records say. */
  lemma NewerDefaultPaymentCloses(ps: seq<Payment>, userId: nat, dueDate: int)
    requires forall j :: 0 <= j < |ps| && ps[j].barberShopId == userId ==> ps[j].dueDate < dueDate
    ensures Gate(ps + [NewPayment(userId, dueDate, None)], userId) == Forbidden
  {
    var ps' := ps + [NewPayment(userId, dueDate, None)];
    assert ps'[..|ps'| - 1] == ps;
  }

  /** A newer paid payment opens the gate, whatever the older records say. */
  lemma NewerPaidPaymentOpens(ps: seq<Payment>, userId: nat, dueDate: int)
    requires forall j :: 0 <= j < |ps| && ps[j].barberShopId == userId ==> ps[j].dueDate < dueDate
    ensures Gate(ps + [NewPayment(userId, dueDate, Some(Paid))], userId) == Next
  {
    var ps' := ps + [NewPayment(userId, dueDate, Some(Paid))];
    assert ps'[..|ps'| - 1] == ps;
  }
}
