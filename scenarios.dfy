/** Request sequences run against a fresh store, proved from the handlers'
    contracts alone. */
module Scenarios {
  import opened Ledger
  import opened Records
  import opened Store

  const Day := "2024-06-01"
  const Ten := "10:00"

  /** A store with one available doctor "P" (fee 500) and an empty ledger. */
  method OneDoctor() returns (c: Clinic)
    ensures fresh(c) && c.Valid() && c.Consistent()
    ensures c.doctors == map["P" := Doctor(true, 500, "", map[])] && c.appointments == map[] && c.nextId == 0
  {
    c := new Clinic(map["P" := Doctor(true, 500, "", map[])]);
  }

  /** Book a slot, fail to book it twice, cancel it, book it again. */
  method BookCancelRebook() returns (r1: Outcome, r2: Outcome, r3: Outcome, r4: Outcome, c: Clinic)
    ensures r1 == Success && r2 == Failed(SlotNotAvailable) && r3 == Success && r4 == Success
    ensures c.Consistent()
    ensures "P" in c.doctors && c.doctors["P"].slots_booked == map[Day := [Ten]]
    ensures c.appointments.Keys == {0, 1} && c.appointments[0].cancelled && !c.appointments[1].cancelled
    ensures c.appointments[1].userId == "u2" && c.appointments[1].amount == 500
  {
    c := OneDoctor();
    var empty: map<string, seq<string>> := map[];
    assert TimesOn(empty, Day) + [Ten] == [Ten];
    assert Reserve(empty, Day, Ten) == map[Day := [Ten]];
    r1 := c.BookAppointment("u1", "P", Day, Ten);
    assert c.doctors["P"].slots_booked == map[Day := [Ten]];
    r2 := c.BookAppointment("u2", "P", Day, Ten);
    r3 := c.CancelAppointment("u1", 0);
    assert Without([Ten], Ten) == [];
    assert c.doctors["P"].slots_booked == map[Day := []];
    assert Reserve(map[Day := []], Day, Ten) == map[Day := [Ten]];
    r4 := c.BookAppointment("u2", "P", Day, Ten);
  }

  /** Toggling availability twice restores the doctor record. */
  method ToggleTwice(c: Clinic, docId: DocId) returns (r1: Outcome, r2: Outcome)
    requires c.Valid()
    modifies c
    ensures c.Valid() && c.doctors == old(c.doctors) && c.appointments == old(c.appointments)
    ensures r1 == r2 && (r1.Success? <==> docId in old(c.doctors))
  {
    r1 := c.ChangeAvailability(docId);
    r2 := c.ChangeAvailability(docId);
    if docId in old(c.doctors) {
      assert c.doctors[docId] == old(c.doctors[docId]);
      assert c.doctors == old(c.doctors);
    }
  }

  /** Re-cancelling by the doctor, as written: u1 books and cancels, u2
      books the same slot, then the doctor cancels u1's old appointment. The
      flag write is harmless, but the filter drops the label that u2's live
      appointment holds, so u3 can book the same slot: two live appointments
      hold one slot. */
  method DoctorReCancelDoubleBooks() returns (r: Outcome, c: Clinic)
    ensures r == Success
    ensures 1 in c.appointments && 2 in c.appointments
    ensures Holds(c.appointments[1], "P", Day, Ten) && Holds(c.appointments[2], "P", Day, Ten)
    ensures !c.Consistent()
  {
    c := OneDoctor();
    var b1 := c.BookAppointment("u1", "P", Day, Ten);
    assert b1 == Success && c.nextId == 1 && c.doctors["P"].slots_booked[Day] == [Ten];
    var x1 := c.CancelAppointment("u1", 0);
    assert Without([Ten], Ten) == [];
    assert x1 == Success && c.doctors["P"].slots_booked[Day] == [] && c.appointments[0].cancelled;
    var b2 := c.BookAppointment("u2", "P", Day, Ten);
    assert b2 == Success && c.nextId == 2 && c.doctors["P"].slots_booked[Day] == [Ten];
    assert Holds(c.appointments[1], "P", Day, Ten);
    r := c.CancelByDoctor("P", 0);
    assert r == Success && c.doctors["P"].slots_booked[Day] == [];
    assert Holds(c.appointments[1], "P", Day, Ten);
    var b3 := c.BookAppointment("u3", "P", Day, Ten);
    assert b3 == Success && c.nextId == 3;
    assert Holds(c.appointments[1], c.appointments[2].docId, c.appointments[2].slotDate, c.appointments[2].slotTime);
  }

  /** The same sequence with the admin's cancel. */
  method AdminReCancelDoubleBooks() returns (r: Outcome, c: Clinic)
    ensures r == Success
    ensures 1 in c.appointments && 2 in c.appointments
    ensures Holds(c.appointments[1], "P", Day, Ten) && Holds(c.appointments[2], "P", Day, Ten)
    ensures !c.Consistent()
  {
    c := OneDoctor();
    var b1 := c.BookAppointment("u1", "P", Day, Ten);
    assert b1 == Success && c.nextId == 1 && c.doctors["P"].slots_booked[Day] == [Ten];
    var x1 := c.CancelAppointment("u1", 0);
    assert Without([Ten], Ten) == [];
    assert x1 == Success && c.doctors["P"].slots_booked[Day] == [] && c.appointments[0].cancelled;
    var b2 := c.BookAppointment("u2", "P", Day, Ten);
    assert b2 == Success && c.nextId == 2 && c.doctors["P"].slots_booked[Day] == [Ten];
    assert Holds(c.appointments[1], "P", Day, Ten);
    r := c.CancelByAdmin(0);
    assert r == Success && c.doctors["P"].slots_booked[Day] == [];
    assert Holds(c.appointments[1], "P", Day, Ten);
    var b3 := c.BookAppointment("u3", "P", Day, Ten);
    assert b3 == Success && c.nextId == 3;
    assert Holds(c.appointments[1], c.appointments[2].docId, c.appointments[2].slotDate, c.appointments[2].slotTime);
  }

  /** The same sequence with the guarded cancels: both refuse the old
      appointment and u3's booking is turned away. */
  method CheckedReCancelRefused() returns (rd: Outcome, ra: Outcome, r3: Outcome, c: Clinic)
    ensures rd == Failed(AlreadyCancelled) && ra == Failed(AlreadyCancelled)
    ensures r3 == Failed(SlotNotAvailable)
    ensures c.Consistent()
  {
    c := OneDoctor();
    var _ := c.BookAppointment("u1", "P", Day, Ten);
    var _ := c.CancelAppointment("u1", 0);
    var _ := c.BookAppointment("u2", "P", Day, Ten);
    assert c.doctors["P"].slots_booked[Day] == [] + [Ten];
    rd := c.CancelByDoctorChecked("P", 0);
    ra := c.CancelByAdminChecked(0);
    r3 := c.BookAppointment("u3", "P", Day, Ten);
  }
}
