/** The two collections the three controllers share (doctors and
    appointments) and every request handler of the core that changes them or
    reads them for a reply. Each method follows its handler's steps in order;
    a handler that writes the cancelled flag before a step that can throw is
    modelled as leaving that write in place, because those handlers run
    outside a transaction. */
module Store {
  import opened Ledger
  import opened Records

  class Clinic {
    var doctors: map<DocId, Doctor>
    var appointments: map<ApptId, Appt>
    /** The identity the next booking receives; every stored one is below it. */
    var nextId: ApptId

    ghost predicate Valid()
      reads this
    {
      forall id | id in appointments :: id < nextId
    }

    /** The ledger/appointment invariant on the current state. */
    ghost predicate Consistent()
      reads this
    {
      Records.Consistent(doctors, appointments)
    }

    /** A store holding the given doctors and no appointment; it satisfies the
        invariant when every ledger list is empty. */
    constructor (docs: map<DocId, Doctor>)
      ensures Valid()
      ensures doctors == docs && appointments == map[] && nextId == 0
      ensures (forall d, date | d in docs && date in docs[d].slots_booked :: docs[d].slots_booked[date] == [])
              ==> Consistent()
    {
      doctors := docs;
      appointments := map[];
      nextId := 0;
    }

    /** bookAppointment: the doctor must exist, be available and not yet hold
        `time` on `date`; then the label is pushed on the date's list and one
        appointment priced at the doctor's current fee is created. Both writes
        happen, or neither. */
    method BookAppointment(userId: UserId, docId: DocId, date: string, time: string) returns (r: Outcome)
      requires Valid()
      modifies this
      ensures Valid()
      ensures docId !in old(doctors) ==> r == Failed(NullRecord)
      ensures docId in old(doctors) && !old(doctors[docId].available) ==> r == Failed(DoctorNotAvailable)
      ensures (docId in old(doctors) && old(doctors[docId].available)
               && time in TimesOn(old(doctors[docId].slots_booked), date)) ==> r == Failed(SlotNotAvailable)
      ensures r.Failed? ==> unchanged(this)
      ensures r.Success? <==> docId in old(doctors) && old(doctors[docId].available)
                              && time !in TimesOn(old(doctors[docId].slots_booked), date)
      ensures r.Success? ==>
        && doctors == WithSlots(old(doctors), docId, Reserve(old(doctors[docId].slots_booked), date, time))
        && appointments == old(appointments)[old(nextId) := NewAppt(userId, docId, date, time, old(doctors[docId].fees))]
        && old(nextId) !in old(appointments)
        && nextId == old(nextId) + 1
      ensures old(Consistent()) ==> Consistent()
    {
      if docId !in doctors {
        return Failed(NullRecord);
      }
      var doc := doctors[docId];
      if !doc.available {
        return Failed(DoctorNotAvailable);
      }
      if time in TimesOn(doc.slots_booked, date) {
        return Failed(SlotNotAvailable);
      }
      if Records.Consistent(doctors, appointments) {
        BookKeepsConsistent(doctors, appointments, nextId, userId, docId, date, time);
      }
      var slots := Reserve(doc.slots_booked, date, time);
      appointments := appointments[nextId := NewAppt(userId, docId, date, time, doc.fees)];
      doctors := WithSlots(doctors, docId, slots);
      nextId := nextId + 1;
      r := Success;
    }

    /** cancelAppointment (patient): rejects an already cancelled appointment,
        then a caller who does not own it; otherwise writes the flag and then
        filters the label out of the date's list, which throws when the doctor
        or the date key is missing, after the flag was written. */
    method CancelAppointment(userId: UserId, id: ApptId) returns (r: Outcome)
      requires Valid()
      modifies this
      ensures Valid() && nextId == old(nextId)
      ensures id !in old(appointments) ==> r == Failed(NullRecord) && unchanged(this)
      ensures id in old(appointments) && old(appointments[id].cancelled) ==> r == Failed(AlreadyCancelled) && unchanged(this)
      ensures id in old(appointments) && !old(appointments[id].cancelled) && old(appointments[id].userId) != userId
              ==> r == Failed(Unauthorized) && unchanged(this)
      ensures id in old(appointments) && !old(appointments[id].cancelled) && old(appointments[id].userId) == userId ==>
        var a := old(appointments[id]);
        && appointments == old(appointments)[id := a.(cancelled := true)]
        && (a.docId !in old(doctors) ==> r == Failed(NullRecord) && doctors == old(doctors))
        && (a.docId in old(doctors) && a.slotDate !in old(doctors[a.docId].slots_booked)
            ==> r == Failed(NoDateEntry) && doctors == old(doctors))
        && (a.docId in old(doctors) && a.slotDate in old(doctors[a.docId].slots_booked) ==>
              r == Success
              && doctors == WithSlots(old(doctors), a.docId, Release(old(doctors[a.docId].slots_booked), a.slotDate, a.slotTime)))
      ensures old(Consistent()) ==> Consistent() && (r.Success? || unchanged(this))
    {
      if id !in appointments {
        return Failed(NullRecord);
      }
      var a := appointments[id];
      if a.cancelled {
        return Failed(AlreadyCancelled);
      }
      if a.userId != userId {
        return Failed(Unauthorized);
      }
      if Records.Consistent(doctors, appointments) {
        ReleaseKeepsConsistent(doctors, appointments, id);
      }
      appointments := appointments[id := a.(cancelled := true)];
      if a.docId !in doctors {
        return Failed(NullRecord);
      }
      var slots := doctors[a.docId].slots_booked;
      if a.slotDate !in slots {
        return Failed(NoDateEntry);
      }
      doctors := WithSlots(doctors, a.docId, Release(slots, a.slotDate, a.slotTime));
      r := Success;
    }

    /** appointmentCancel (doctor): only the treating doctor may cancel; the
        flag is written even when it was already set, and the date's list is
        filtered only when the key exists. */
    method CancelByDoctor(docId: DocId, id: ApptId) returns (r: Outcome)
      requires Valid()
      modifies this
      ensures Valid() && nextId == old(nextId)
      ensures id !in old(appointments) || old(appointments[id].docId) != docId
              ==> r == Failed(CancellationFailed) && unchanged(this)
      ensures id in old(appointments) && old(appointments[id].docId) == docId ==>
        var a := old(appointments[id]);
        && appointments == old(appointments)[id := a.(cancelled := true)]
        && (docId !in old(doctors) ==> r == Failed(NullRecord) && doctors == old(doctors))
        && (docId in old(doctors) ==> r == Success)
        && (docId in old(doctors) && a.slotDate !in old(doctors[docId].slots_booked) ==> doctors == old(doctors))
        && (docId in old(doctors) && a.slotDate in old(doctors[docId].slots_booked) ==>
              doctors == WithSlots(old(doctors), docId, Release(old(doctors[docId].slots_booked), a.slotDate, a.slotTime)))
      ensures old(Consistent()) && id in old(appointments) && !old(appointments[id].cancelled) ==> Consistent()
    {
      if id !in appointments || appointments[id].docId != docId {
        return Failed(CancellationFailed);
      }
      var a := appointments[id];
      if !a.cancelled && Records.Consistent(doctors, appointments) {
        ReleaseKeepsConsistent(doctors, appointments, id);
      }
      appointments := appointments[id := a.(cancelled := true)];
      if docId !in doctors {
        return Failed(NullRecord);
      }
      var slots := doctors[docId].slots_booked;
      if a.slotDate in slots {
        doctors := WithSlots(doctors, docId, Release(slots, a.slotDate, a.slotTime));
      }
      r := Success;
    }

    /** appointmentCancel (admin): no ownership and no already-cancelled
        check; the flag is written first, and a missing doctor or date key
        then throws. */
    method CancelByAdmin(id: ApptId) returns (r: Outcome)
      requires Valid()
      modifies this
      ensures Valid() && nextId == old(nextId)
      ensures id !in old(appointments) ==> r == Failed(NullRecord) && unchanged(this)
      ensures id in old(appointments) ==>
        var a := old(appointments[id]);
        && appointments == old(appointments)[id := a.(cancelled := true)]
        && (a.docId !in old(doctors) ==> r == Failed(NullRecord) && doctors == old(doctors))
        && (a.docId in old(doctors) && a.slotDate !in old(doctors[a.docId].slots_booked)
            ==> r == Failed(NoDateEntry) && doctors == old(doctors))
        && (a.docId in old(doctors) && a.slotDate in old(doctors[a.docId].slots_booked) ==>
              r == Success
              && doctors == WithSlots(old(doctors), a.docId, Release(old(doctors[a.docId].slots_booked), a.slotDate, a.slotTime)))
      ensures old(Consistent()) && id in old(appointments) && !old(appointments[id].cancelled) ==> Consistent() && r == Success
    {
      if id !in appointments {
        return Failed(NullRecord);
      }
      var a := appointments[id];
      if !a.cancelled && Records.Consistent(doctors, appointments) {
        ReleaseKeepsConsistent(doctors, appointments, id);
      }
      appointments := appointments[id := a.(cancelled := true)];
      if a.docId !in doctors {
        return Failed(NullRecord);
      }
      var slots := doctors[a.docId].slots_booked;
      if a.slotDate !in slots {
        return Failed(NoDateEntry);
      }
      doctors := WithSlots(doctors, a.docId, Release(slots, a.slotDate, a.slotTime));
      r := Success;
    }

    /** Doctor cancel with the already-cancelled guard the patient path has:
        it keeps the ledger invariant whatever appointment it is given. */
    method CancelByDoctorChecked(docId: DocId, id: ApptId) returns (r: Outcome)
      requires Valid()
      modifies this
      ensures Valid() && nextId == old(nextId)
      ensures id !in old(appointments) || old(appointments[id].docId) != docId
              ==> r == Failed(CancellationFailed) && unchanged(this)
      ensures id in old(appointments) && old(appointments[id].docId) == docId && old(appointments[id].cancelled)
              ==> r == Failed(AlreadyCancelled) && unchanged(this)
      ensures id in old(appointments) && old(appointments[id].docId) == docId && !old(appointments[id].cancelled) ==>
        var a := old(appointments[id]);
        && appointments == old(appointments)[id := a.(cancelled := true)]
        && (docId !in old(doctors) ==> r == Failed(NullRecord) && doctors == old(doctors))
        && (docId in old(doctors) ==> r == Success)
        && (docId in old(doctors) && a.slotDate !in old(doctors[docId].slots_booked) ==> doctors == old(doctors))
        && (docId in old(doctors) && a.slotDate in old(doctors[docId].slots_booked) ==>
              doctors == WithSlots(old(doctors), docId, Release(old(doctors[docId].slots_booked), a.slotDate, a.slotTime)))
      ensures old(Consistent()) ==> Consistent()
    {
      if id in appointments && appointments[id].docId == docId && appointments[id].cancelled {
        return Failed(AlreadyCancelled);
      }
      r := CancelByDoctor(docId, id);
    }

    /** Admin cancel with the already-cancelled guard: it keeps the ledger
        invariant, and under it never fails on a stored appointment. */
    method CancelByAdminChecked(id: ApptId) returns (r: Outcome)
      requires Valid()
      modifies this
      ensures Valid() && nextId == old(nextId)
      ensures id !in old(appointments) ==> r == Failed(NullRecord) && unchanged(this)
      ensures id in old(appointments) && old(appointments[id].cancelled) ==> r == Failed(AlreadyCancelled) && unchanged(this)
      ensures id in old(appointments) && !old(appointments[id].cancelled) ==>
        var a := old(appointments[id]);
        && appointments == old(appointments)[id := a.(cancelled := true)]
        && (a.docId !in old(doctors) ==> r == Failed(NullRecord) && doctors == old(doctors))
        && (a.docId in old(doctors) && a.slotDate !in old(doctors[a.docId].slots_booked)
            ==> r == Failed(NoDateEntry) && doctors == old(doctors))
        && (a.docId in old(doctors) && a.slotDate in old(doctors[a.docId].slots_booked) ==>
              r == Success
              && doctors == WithSlots(old(doctors), a.docId, Release(old(doctors[a.docId].slots_booked), a.slotDate, a.slotTime)))
      ensures old(Consistent()) ==> Consistent() && (id in old(appointments) && !old(appointments[id].cancelled) ==> r == Success)
    {
      if id in appointments && appointments[id].cancelled {
        return Failed(AlreadyCancelled);
      }
      r := CancelByAdmin(id);
    }

    /** appointmentComplete: only the treating doctor may mark an appointment
        completed; no check on the other two flags. */
    method CompleteAppointment(docId: DocId, id: ApptId) returns (r: Outcome)
      requires Valid()
      modifies this
      ensures Valid()
      ensures r.Success? <==> id in old(appointments) && old(appointments[id].docId) == docId
      ensures r.Failed? ==> r.reason == MarkFailed && unchanged(this)
      ensures r.Success? ==> appointments == old(appointments)[id := old(appointments[id]).(isCompleted := true)]
                             && doctors == old(doctors) && nextId == old(nextId)
      ensures old(Consistent()) ==> Consistent()
    {
      if id in appointments && appointments[id].docId == docId {
        if Records.Consistent(doctors, appointments) {
          FlagUpdateKeepsConsistent(doctors, appointments, id, appointments[id].(isCompleted := true));
        }
        appointments := appointments[id := appointments[id].(isCompleted := true)];
        r := Success;
      } else {
        r := Failed(MarkFailed);
      }
    }

    /** changeAvailability: negates the doctor's flag and nothing else. */
    method ChangeAvailability(docId: DocId) returns (r: Outcome)
      requires Valid()
      modifies this
      ensures Valid()
      ensures docId !in old(doctors) ==> r == Failed(NullRecord) && unchanged(this)
      ensures docId in old(doctors) ==>
        r == Success
        && doctors == old(doctors)[docId := old(doctors[docId]).(available := !old(doctors[docId].available))]
        && appointments == old(appointments) && nextId == old(nextId)
      ensures old(Consistent()) ==> Consistent()
    {
      if docId !in doctors {
        return Failed(NullRecord);
      }
      if Records.Consistent(doctors, appointments) {
        ProfileUpdateKeepsConsistent(doctors, appointments, docId, doctors[docId].(available := !doctors[docId].available));
      }
      doctors := doctors[docId := doctors[docId].(available := !doctors[docId].available)];
      r := Success;
    }

    /** updateDoctorProfile: overwrites fee, address and availability; an
        update of a missing doctor matches nothing and still replies success. */
    method UpdateDoctorProfile(docId: DocId, fees: nat, address: string, available: bool) returns (r: Outcome)
      requires Valid()
      modifies this
      ensures Valid() && r == Success
      ensures docId !in old(doctors) ==> unchanged(this)
      ensures docId in old(doctors) ==>
        doctors == old(doctors)[docId := old(doctors[docId]).(fees := fees, address := address, available := available)]
        && appointments == old(appointments) && nextId == old(nextId)
      ensures old(Consistent()) ==> Consistent()
    {
      if docId in doctors {
        var doc := doctors[docId].(fees := fees, address := address, available := available);
        if Records.Consistent(doctors, appointments) {
          ProfileUpdateKeepsConsistent(doctors, appointments, docId, doc);
        }
        doctors := doctors[docId := doc];
      }
      r := Success;
    }

    /** paymentRazorpay: a missing or cancelled appointment is refused, then a
        caller who does not own it; otherwise the gateway order asks for the
        amount in minor units (times 100) with the appointment as receipt. */
    method PaymentRazorpay(userId: UserId, id: ApptId, currency: string) returns (r: Result<Order>)
      ensures r.Ok? <==> id in appointments && !appointments[id].cancelled && appointments[id].userId == userId
      ensures r.Ok? ==> r.value.amount == appointments[id].amount * 100 && r.value.receipt == id
                        && r.value.currency == currency
      ensures id !in appointments || appointments[id].cancelled ==> r == Err(CancelledOrNotFound)
      ensures id in appointments && !appointments[id].cancelled && appointments[id].userId != userId
              ==> r == Err(Unauthorized)
    {
      if id !in appointments || appointments[id].cancelled {
        return Err(CancelledOrNotFound);
      }
      if appointments[id].userId != userId {
        return Err(Unauthorized);
      }
      r := Ok(Order(appointments[id].amount * 100, currency, id));
    }

    /** verifyPayment: the signature must equal the keyed hash of
        `orderId + "|" + paymentId`; then the order the gateway reports
        (`status`, `receipt`) names the appointment, whose owner must be the
        caller; only the status "paid" sets the payment flag. */
    method VerifyPayment(userId: UserId, orderId: string, paymentId: string, signature: string,
                         secret: string, hmac: (string, string) -> string,
                         status: string, receipt: ApptId) returns (r: Outcome)
      requires Valid()
      modifies this
      ensures Valid()
      ensures signature != hmac(secret, orderId + "|" + paymentId)
              ==> r == Failed(VerificationFailed) && unchanged(this)
      ensures signature == hmac(secret, orderId + "|" + paymentId) && receipt !in old(appointments)
              ==> r == Failed(NullRecord) && unchanged(this)
      ensures (signature == hmac(secret, orderId + "|" + paymentId) && receipt in old(appointments)
               && old(appointments[receipt].userId) != userId) ==> r == Failed(Unauthorized) && unchanged(this)
      ensures signature == hmac(secret, orderId + "|" + paymentId) && receipt in old(appointments)
              && old(appointments[receipt].userId) == userId && status != "paid"
              ==> r == Failed(PaymentFailed) && unchanged(this)
      ensures r.Success? <==> signature == hmac(secret, orderId + "|" + paymentId) && receipt in old(appointments)
                              && old(appointments[receipt].userId) == userId && status == "paid"
      ensures r.Success? ==> appointments == old(appointments)[receipt := old(appointments[receipt]).(payment := true)]
                             && doctors == old(doctors) && nextId == old(nextId)
      ensures r.Success? && old(appointments[receipt].payment) ==> unchanged(this)
      ensures old(Consistent()) ==> Consistent()
    {
      if signature != hmac(secret, orderId + "|" + paymentId) {
        return Failed(VerificationFailed);
      }
      if receipt !in appointments {
        return Failed(NullRecord);
      }
      if appointments[receipt].userId != userId {
        return Failed(Unauthorized);
      }
      if status == "paid" {
        var a := appointments[receipt];
        if Records.Consistent(doctors, appointments) {
          FlagUpdateKeepsConsistent(doctors, appointments, receipt, a.(payment := true));
        }
        if a.payment {
          assert a.(payment := true) == a;
          assert appointments[receipt := a] == appointments;
        }
        appointments := appointments[receipt := a.(payment := true)];
        r := Success;
      } else {
        r := Failed(PaymentFailed);
      }
    }
  }
}
