/** The stored records (doctor, appointment), the outcomes the controllers
    reply with, and the consistency invariant that ties every doctor's slot
    ledger to the appointments that are not cancelled. */
module Records {
  import opened Ledger

  type DocId = string
  type UserId = string
  /** Appointment identities are handed out in creation order (see Store). */
  type ApptId = nat

  /** A doctor record: the availability flag, the fee, the address (an
      uninterpreted value here) and the slot ledger. */
  datatype Doctor = Doctor(available: bool, fees: nat, address: string, slots_booked: map<string, seq<string>>)

  /** An appointment record with its three independent flags. */
  datatype Appt = Appt(
    userId: UserId, docId: DocId, slotDate: string, slotTime: string, amount: nat,
    cancelled: bool, isCompleted: bool, payment: bool)

  /** Why a request failed; the comment gives the reply's message. */
  datatype Failure =
    | DoctorNotAvailable     // 'Doctor not available'
    | SlotNotAvailable       // 'Slot not available'
    | AlreadyCancelled       // 'Appointment already cancelled'
    | Unauthorized           // 'Unauthorized action'
    | CancelledOrNotFound    // 'Appointment Cancelled or not found'
    | VerificationFailed     // 'Payment Verification Failed'
    | PaymentFailed          // 'Payment Failed'
    | MarkFailed             // 'Mark Failed'
    | CancellationFailed     // 'Cancellation Failed'
    | NullRecord             // a TypeError: a field read on a record the store did not find
    | NoDateEntry            // a TypeError: `filter` called on a date key the ledger lacks

  /** The `{ success, message }` reply of an operation that returns no data. */
  datatype Outcome = Success | Failed(reason: Failure)

  /** A reply that carries data on success. */
  datatype Result<T> = Ok(value: T) | Err(reason: Failure)

  /** The options of a payment-gateway order. */
  datatype Order = Order(amount: nat, currency: string, receipt: ApptId)

  /** The appointment record that booking creates. */
  function NewAppt(userId: UserId, docId: DocId, date: string, time: string, fees: nat): Appt
  {
    Appt(userId, docId, date, time, fees, false, false, false)
  }

  /** `t` is in doctor `d`'s list for `date`. */
  ghost predicate InLedger(docs: map<DocId, Doctor>, d: DocId, date: string, t: string)
  {
    d in docs && t in TimesOn(docs[d].slots_booked, date)
  }

  /** Appointment `a` is live and holds slot (d, date, t). */
  ghost predicate Holds(a: Appt, d: DocId, date: string, t: string)
  {
    !a.cancelled && a.docId == d && a.slotDate == date && a.slotTime == t
  }

  /** Every date's list is duplicate-free. */
  ghost predicate LedgerDupFree(docs: map<DocId, Doctor>)
  {
    forall d, date | d in docs && date in docs[d].slots_booked :: NoDup(docs[d].slots_booked[date])
  }

  /** A label is in the ledger iff some live appointment holds that slot. */
  ghost predicate LedgerMatches(docs: map<DocId, Doctor>, appts: map<ApptId, Appt>)
  {
    && (forall id | id in appts && !appts[id].cancelled ::
          InLedger(docs, appts[id].docId, appts[id].slotDate, appts[id].slotTime))
    && (forall d, date, t | InLedger(docs, d, date, t) ::
          exists id :: id in appts && Holds(appts[id], d, date, t))
  }

  /** No two live appointments hold the same slot. */
  ghost predicate SlotsExclusive(appts: map<ApptId, Appt>)
  {
    forall i, j | i in appts && j in appts && Holds(appts[i], appts[j].docId, appts[j].slotDate, appts[j].slotTime)
                  && !appts[j].cancelled :: i == j
  }

  /** The ledger/appointment invariant. */
  ghost predicate Consistent(docs: map<DocId, Doctor>, appts: map<ApptId, Appt>)
  {
    LedgerDupFree(docs) && LedgerMatches(docs, appts) && SlotsExclusive(appts)
  }

  /** The doctor map after doctor `d`'s ledger was replaced by `slots`. */
  function WithSlots(docs: map<DocId, Doctor>, d: DocId, slots: map<string, seq<string>>): map<DocId, Doctor>
    requires d in docs
  {
    docs[d := docs[d].(slots_booked := slots)]
  }

  /** A successful booking keeps the invariant: the new label is held by the
      new appointment, whose identity is fresh. */
  lemma BookKeepsConsistent(docs: map<DocId, Doctor>, appts: map<ApptId, Appt>, id: ApptId,
                            userId: UserId, docId: DocId, date: string, time: string)
    requires Consistent(docs, appts)
    requires id !in appts && docId in docs
    requires time !in TimesOn(docs[docId].slots_booked, date)
    ensures Consistent(WithSlots(docs, docId, Reserve(docs[docId].slots_booked, date, time)),
                       appts[id := NewAppt(userId, docId, date, time, docs[docId].fees)])
  {
    var slots := docs[docId].slots_booked;
    var docs' := WithSlots(docs, docId, Reserve(slots, date, time));
    var a := NewAppt(userId, docId, date, time, docs[docId].fees);
    var appts' := appts[id := a];
    ReserveNoDup(slots, date, time);
    forall i | i in appts' && !appts'[i].cancelled
      ensures InLedger(docs', appts'[i].docId, appts'[i].slotDate, appts'[i].slotTime)
    {
      if i != id {
        assert InLedger(docs, appts[i].docId, appts[i].slotDate, appts[i].slotTime);
      }
    }
    forall d, dt, t | InLedger(docs', d, dt, t)
      ensures exists i :: i in appts' && Holds(appts'[i], d, dt, t)
    {
      if d == docId && dt == date && t == time {
        assert Holds(appts'[id], d, dt, t);
      } else {
        assert InLedger(docs, d, dt, t);
        var i :| i in appts && Holds(appts[i], d, dt, t);
        assert appts'[i] == appts[i];
      }
    }
    forall i, j | i in appts' && j in appts' && Holds(appts'[i], appts'[j].docId, appts'[j].slotDate, appts'[j].slotTime)
                  && !appts'[j].cancelled
      ensures i == j
    {
    }
  }

  /** Releasing a LIVE appointment keeps the invariant: its date key exists,
      and no other live appointment held the label the filter drops. */
  lemma ReleaseKeepsConsistent(docs: map<DocId, Doctor>, appts: map<ApptId, Appt>, id: ApptId)
    requires Consistent(docs, appts)
    requires id in appts && !appts[id].cancelled
    ensures appts[id].docId in docs && appts[id].slotDate in docs[appts[id].docId].slots_booked
    ensures var a := appts[id];
      Consistent(WithSlots(docs, a.docId, Release(docs[a.docId].slots_booked, a.slotDate, a.slotTime)),
                 appts[id := a.(cancelled := true)])
  {
    var a := appts[id];
    assert InLedger(docs, a.docId, a.slotDate, a.slotTime);
    var slots := docs[a.docId].slots_booked;
    var docs' := WithSlots(docs, a.docId, Release(slots, a.slotDate, a.slotTime));
    var appts' := appts[id := a.(cancelled := true)];
    forall d, dt | d in docs' && dt in docs'[d].slots_booked
      ensures NoDup(docs'[d].slots_booked[dt])
    {
      if d == a.docId && dt == a.slotDate {
        WithoutNoDup(slots[dt], a.slotTime);
      }
    }
    forall i | i in appts' && !appts'[i].cancelled
      ensures InLedger(docs', appts'[i].docId, appts'[i].slotDate, appts'[i].slotTime)
    {
      assert i != id && appts'[i] == appts[i];
      assert InLedger(docs, appts[i].docId, appts[i].slotDate, appts[i].slotTime);
      assert !Holds(appts[i], a.docId, a.slotDate, a.slotTime);
    }
    forall d, dt, t | InLedger(docs', d, dt, t)
      ensures exists i :: i in appts' && Holds(appts'[i], d, dt, t)
    {
      assert InLedger(docs, d, dt, t);
      var i :| i in appts && Holds(appts[i], d, dt, t);
      assert i != id;
      assert appts'[i] == appts[i];
    }
  }

  /** A write to an appointment that keeps its cancelled flag and its slot
      (completion, payment) keeps the invariant. */
  lemma FlagUpdateKeepsConsistent(docs: map<DocId, Doctor>, appts: map<ApptId, Appt>, id: ApptId, a: Appt)
    requires Consistent(docs, appts)
    requires id in appts
    requires a.cancelled == appts[id].cancelled && a.docId == appts[id].docId
    requires a.slotDate == appts[id].slotDate && a.slotTime == appts[id].slotTime
    ensures Consistent(docs, appts[id := a])
  {
    var appts' := appts[id := a];
    forall d, dt, t | InLedger(docs, d, dt, t)
      ensures exists i :: i in appts' && Holds(appts'[i], d, dt, t)
    {
      var i :| i in appts && Holds(appts[i], d, dt, t);
      assert Holds(appts'[i], d, dt, t);
    }
  }

  /** A write to a doctor that keeps its ledger (availability, fee, address)
      keeps the invariant. */
  lemma ProfileUpdateKeepsConsistent(docs: map<DocId, Doctor>, appts: map<ApptId, Appt>, d: DocId, doc: Doctor)
    requires Consistent(docs, appts)
    requires d in docs && doc.slots_booked == docs[d].slots_booked
    ensures Consistent(docs[d := doc], appts)
  {
    var docs' := docs[d := doc];
    forall e, dt, t | InLedger(docs', e, dt, t)
      ensures exists i :: i in appts && Holds(appts[i], e, dt, t)
    {
      assert InLedger(docs, e, dt, t);
    }
    forall i | i in appts && !appts[i].cancelled
      ensures InLedger(docs', appts[i].docId, appts[i].slotDate, appts[i].slotTime)
    {
      assert InLedger(docs, appts[i].docId, appts[i].slotDate, appts[i].slotTime);
    }
  }
}
