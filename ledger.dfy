/** The slot ledger of one doctor: a map from a calendar date to the list of
    time labels already reserved on that date, and the list operations the
    controllers apply to it (push on booking, filter on release). */
module Ledger {

  /** No element occurs twice. */
  predicate NoDup<T(==)>(s: seq<T>)
  {
    forall i, j | 0 <= i < j < |s| :: s[i] != s[j]
  }

  /** The list kept for `date`; a missing date key reads as the empty list. */
  function TimesOn(slots: map<string, seq<string>>, date: string): seq<string>
  {
    if date in slots then slots[date] else []
  }

  /** `list.filter(e => e !== t)`: every occurrence of `t` dropped, the other
      labels kept in their order. */
  function Without(list: seq<string>, t: string): (r: seq<string>)
    ensures forall x :: x in r <==> x in list && x != t
    ensures |r| <= |list|
  {
    if list == [] then []
    else if list[0] == t then Without(list[1..], t)
    else [list[0]] + Without(list[1..], t)
  }

  /** Booking's ledger write: `time` pushed at the end of the date's list, the
      list being created empty first when the date key is absent. */
  function Reserve(slots: map<string, seq<string>>, date: string, time: string): (r: map<string, seq<string>>)
    ensures r.Keys == slots.Keys + {date}
    ensures r[date] == TimesOn(slots, date) + [time]
    ensures forall d | d in slots && d != date :: r[d] == slots[d]
  {
    slots[date := TimesOn(slots, date) + [time]]
  }

  /** Release's ledger write: the date's list replaced by its filtered copy. */
  function Release(slots: map<string, seq<string>>, date: string, time: string): (r: map<string, seq<string>>)
    requires date in slots
    ensures r.Keys == slots.Keys
    ensures forall x :: x in r[date] <==> x in slots[date] && x != time
    ensures forall d | d in slots && d != date :: r[d] == slots[d]
  {
    slots[date := Without(slots[date], time)]
  }

  /** Filtering distributes over concatenation: the labels other than `t`
      keep their relative order. */
  lemma {:induction false} WithoutAppend(a: seq<string>, b: seq<string>, t: string)
    ensures Without(a + b, t) == Without(a, t) + Without(b, t)
  {
    if a == [] {
      assert a + b == b;
    } else {
      assert (a + b)[0] == a[0] && (a + b)[1..] == a[1..] + b;
      WithoutAppend(a[1..], b, t);
    }
  }

  /** A label that is not in the list is filtered out of nothing. */
  lemma {:induction false} WithoutAbsent(list: seq<string>, t: string)
    requires t !in list
    ensures Without(list, t) == list
  {
    if list != [] {
      WithoutAbsent(list[1..], t);
    }
  }

  /** Filtering keeps a duplicate-free list duplicate-free. */
  lemma {:induction false} WithoutNoDup(list: seq<string>, t: string)
    requires NoDup(list)
    ensures NoDup(Without(list, t))
  {
    if list != [] {
      assert NoDup(list[1..]) by {
        forall i, j | 0 <= i < j < |list[1..]| ensures list[1..][i] != list[1..][j] {
          assert list[1..][i] == list[i + 1] && list[1..][j] == list[j + 1];
        }
      }
      WithoutNoDup(list[1..], t);
      var rest := Without(list[1..], t);
      if list[0] != t {
        assert list[0] !in list[1..];
        assert list[0] !in rest;
        var r := [list[0]] + rest;
        forall i, j | 0 <= i < j < |r| ensures r[i] != r[j] {
          if i == 0 {
            assert r[j] == rest[j - 1];
          } else {
            assert r[i] == rest[i - 1] && r[j] == rest[j - 1];
          }
        }
      }
    }
  }

  /** In a duplicate-free list holding `t`, the filter removes exactly one
      element. */
  lemma {:induction false} WithoutRemovesOne(list: seq<string>, t: string)
    requires NoDup(list) && t in list
    ensures |Without(list, t)| == |list| - 1
  {
    if list[0] == t {
      assert t !in list[1..] by {
        forall k | 0 <= k < |list[1..]| ensures list[1..][k] != t {
          assert list[1..][k] == list[k + 1];
        }
      }
      WithoutAbsent(list[1..], t);
    } else {
      assert NoDup(list[1..]) by {
        forall i, j | 0 <= i < j < |list[1..]| ensures list[1..][i] != list[1..][j] {
          assert list[1..][i] == list[i + 1] && list[1..][j] == list[j + 1];
        }
      }
      WithoutRemovesOne(list[1..], t);
    }
  }

  /** Release undoes Reserve: booking a free label and then releasing it gives
      back the date's previous list. */
  lemma ReleaseUndoesReserve(slots: map<string, seq<string>>, date: string, time: string)
    requires time !in TimesOn(slots, date)
    ensures Release(Reserve(slots, date, time), date, time)[date] == TimesOn(slots, date)
  {
    WithoutAppend(TimesOn(slots, date), [time], time);
    WithoutAbsent(TimesOn(slots, date), time);
    assert Without([time], time) == [];
  }

  /** Reserving a label that is not yet on the date keeps every list
      duplicate-free. */
  lemma ReserveNoDup(slots: map<string, seq<string>>, date: string, time: string)
    requires forall d | d in slots :: NoDup(slots[d])
    requires time !in TimesOn(slots, date)
    ensures forall d | d in Reserve(slots, date, time) :: NoDup(Reserve(slots, date, time)[d])
  {
  }
}
