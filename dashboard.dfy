/** The doctor and admin dashboards: read-only summaries of the appointment
    list the store returns for a query (in storage order, oldest first). */
module Dashboard {
  import opened Ledger
  import opened Records

  datatype DoctorDash = DoctorDash(earnings: nat, appointments: nat, patients: nat, latestAppointments: seq<Appt>)

  datatype AdminDash = AdminDash(doctors: nat, appointments: nat, patients: nat, latestAppointments: seq<Appt>)

  /** An appointment counts towards earnings once completed or paid, whether
      or not it was cancelled. */
  predicate Settled(a: Appt)
  {
    a.isCompleted || a.payment
  }

  /** What appointment `a` adds to the earnings. */
  function Share(a: Appt): nat
  {
    if Settled(a) then a.amount else 0
  }

  /** Total of the settled appointments' amounts. */
  function Earnings(s: seq<Appt>): nat
  {
    if s == [] then 0 else Earnings(s[..|s| - 1]) + Share(s[|s| - 1])
  }

  /** The distinct patients of the list. */
  function Patients(s: seq<Appt>): set<UserId>
  {
    set a | a in s :: a.userId
  }

  /** `s.reverse().slice(0, n)`: the last `n` elements, newest first. */
  function Latest<T>(s: seq<T>, n: nat): (r: seq<T>)
    ensures |r| == if n < |s| then n else |s|
    ensures forall k | 0 <= k < |r| :: r[k] == s[|s| - 1 - k]
  {
    if n == 0 || s == [] then [] else [s[|s| - 1]] + Latest(s[..|s| - 1], n - 1)
  }

  /** Earnings add up over a split of the list. */
  lemma {:induction false} EarningsAppend(s: seq<Appt>, t: seq<Appt>)
    ensures Earnings(s + t) == Earnings(s) + Earnings(t)
  {
    if t == [] {
      assert s + t == s;
    } else {
      assert (s + t)[..|s + t| - 1] == s + t[..|t| - 1];
      EarningsAppend(s, t[..|t| - 1]);
    }
  }

  /** Replacing one appointment of the list (marking it completed or paid)
      changes the earnings by exactly the difference of the two shares. */
  lemma EarningsUpdate(s: seq<Appt>, k: nat, a: Appt)
    requires k < |s|
    ensures Earnings(s[k := a]) + Share(s[k]) == Earnings(s) + Share(a)
  {
    assert s == s[..k] + [s[k]] + s[k + 1..];
    assert s[k := a] == s[..k] + [a] + s[k + 1..];
    EarningsAppend(s[..k] + [s[k]], s[k + 1..]);
    EarningsAppend(s[..k], [s[k]]);
    EarningsAppend(s[..k] + [a], s[k + 1..]);
    EarningsAppend(s[..k], [a]);
    assert Earnings([a]) == Share(a) by { assert [a][..0] == []; }
    assert Earnings([s[k]]) == Share(s[k]) by { assert [s[k]][..0] == []; }
  }

  /** A duplicate-free list has as many elements as its set. */
  lemma {:induction false} DistinctCount<T>(p: seq<T>)
    requires NoDup(p)
    ensures |set x | x in p| == |p|
  {
    if p != [] {
      var q := p[..|p| - 1];
      assert NoDup(q) by {
        forall i, j | 0 <= i < j < |q| ensures q[i] != q[j] {
          assert q[i] == p[i] && q[j] == p[j];
        }
      }
      DistinctCount(q);
      var last := p[|p| - 1];
      assert last !in q by {
        forall k | 0 <= k < |q| ensures q[k] != last {
          assert q[k] == p[k];
        }
      }
      assert p == q + [last];
      assert (set x | x in p) == (set x | x in q) + {last};
    }
  }

  /** doctorDashboard: earnings summed over the settled appointments, the
      number of distinct patients (collected by a membership test), the
      number of appointments, and the five newest. */
  method DoctorDashboard(appts: seq<Appt>) returns (dash: DoctorDash)
    ensures dash.earnings == Earnings(appts)
    ensures dash.appointments == |appts|
    ensures dash.patients == |Patients(appts)| && dash.patients <= |appts|
    ensures |dash.latestAppointments| <= 5
    ensures dash.latestAppointments == Latest(appts, 5)
  {
    var earnings := 0;
    var i := 0;
    while i < |appts|
      invariant 0 <= i <= |appts|
      invariant earnings == Earnings(appts[..i])
    {
      assert appts[..i + 1][..i] == appts[..i];
      if appts[i].isCompleted || appts[i].payment {
        earnings := earnings + appts[i].amount;
      }
      i := i + 1;
    }
    assert appts[..|appts|] == appts;

    var patients: seq<UserId> := [];
    i := 0;
    while i < |appts|
      invariant 0 <= i <= |appts|
      invariant NoDup(patients) && |patients| <= i
      invariant (set x | x in patients) == Patients(appts[..i])
    {
      assert appts[..i + 1] == appts[..i] + [appts[i]];
      assert Patients(appts[..i + 1]) == Patients(appts[..i]) + {appts[i].userId};
      if appts[i].userId !in patients {
        assert (set x | x in patients + [appts[i].userId]) == (set x | x in patients) + {appts[i].userId};
        patients := patients + [appts[i].userId];
      }
      i := i + 1;
    }
    DistinctCount(patients);
    dash := DoctorDash(earnings, |appts|, |patients|, Latest(appts, 5));
  }

  /** adminDashboard: the sizes of the three collections and the five newest
      appointments, newest first. */
  function AdminDashboard(doctors: seq<Doctor>, users: seq<UserId>, appts: seq<Appt>): (r: AdminDash)
    ensures r.doctors == |doctors| && r.appointments == |appts| && r.patients == |users|
    ensures |r.latestAppointments| == (if |appts| < 5 then |appts| else 5)
    ensures forall k | 0 <= k < |r.latestAppointments| :: r.latestAppointments[k] == appts[|appts| - 1 - k]
  {
    AdminDash(|doctors|, |appts|, |users|, Latest(appts, 5))
  }
}
