/**
  What both hospital variants compute over their patient lists, independently of the
  patient class: the numbers in use, the first-of-each-number filter of `load_data`, and
  the room map `{p.room_number: p.name for p in patients if p.room_number}`. A patient
  list is passed with the function that reads a patient's number (a field no operation
  reassigns), or as the sequence of its (room, name) pairs.
 */
module Records {
  import opened Wrappers

  /** The patient numbers of `ps`, in order. */
  function NumbersOf<T>(ps: seq<T>, number: T -> string): (ns: seq<string>)
    ensures |ns| == |ps|
    ensures forall i :: 0 <= i < |ps| ==> ns[i] == number(ps[i])
  {
    seq(|ps|, i requires 0 <= i < |ps| => number(ps[i]))
  }

  /** The set of patient numbers occurring in `ps`. */
  function NumberSet<T>(ps: seq<T>, number: T -> string): set<string> {
    set i | 0 <= i < |ps| :: number(ps[i])
  }

  predicate NumbersDistinct<T>(ps: seq<T>, number: T -> string) {
    forall i, j :: 0 <= i < j < |ps| ==> number(ps[i]) != number(ps[j])
  }

  /**
    The patients `load_data` keeps: the first patient of each number, in order. Every
    loaded number survives, and no number appears twice.
   */
  function DedupByNumber<T(==)>(ps: seq<T>, number: T -> string): (r: seq<T>)
    ensures NumbersDistinct(r, number)
    ensures NumberSet(r, number) == NumberSet(ps, number)
    ensures forall k :: 0 <= k < |r| ==> r[k] in ps
    decreases |ps|
  {
    if ps == [] then []
    else
      var n := |ps| - 1;
      var rest := DedupByNumber(ps[..n], number);
      assert ps == ps[..n] + [ps[n]];
      NumberSetAppend(ps[..n], ps[n], number);
      if number(ps[n]) in NumberSet(ps[..n], number) then rest
      else
        NumberSetAppend(rest, ps[n], number);
        assert forall i :: 0 <= i < |rest| ==> number(rest[i]) in NumberSet(rest, number);
        rest + [ps[n]]
  }

  lemma NumberSetAppend<T>(xs: seq<T>, p: T, number: T -> string)
    ensures NumberSet(xs + [p], number) == NumberSet(xs, number) + {number(p)}
  {
    var ys := xs + [p];
    forall x | x in NumberSet(ys, number)
      ensures x in NumberSet(xs, number) + {number(p)}
    {
      var i :| 0 <= i < |ys| && number(ys[i]) == x;
      if i < |xs| {
        assert ys[i] == xs[i];
      }
    }
    forall x | x in NumberSet(xs, number)
      ensures x in NumberSet(ys, number)
    {
      var i :| 0 <= i < |xs| && number(xs[i]) == x;
      assert ys[i] == xs[i];
    }
    assert ys[|xs|] == p;
  }

  /** One more loaded patient: kept exactly when its number is new. */
  lemma DedupStep<T>(ps: seq<T>, i: int, number: T -> string)
    requires 0 <= i < |ps|
    ensures NumberSet(ps[..i + 1], number) == NumberSet(ps[..i], number) + {number(ps[i])}
    ensures DedupByNumber(ps[..i + 1], number) ==
              if number(ps[i]) in NumberSet(ps[..i], number) then DedupByNumber(ps[..i], number)
              else DedupByNumber(ps[..i], number) + [ps[i]]
  {
    assert ps[..i + 1][..i] == ps[..i];
    assert ps[..i + 1] == ps[..i] + [ps[i]];
    NumberSetAppend(ps[..i], ps[i], number);
  }

  /** `ps[i]` is the first patient of `ps` with its number. */
  predicate FirstOfNumber<T>(ps: seq<T>, i: int, number: T -> string)
    requires 0 <= i < |ps|
  {
    forall j :: 0 <= j < i ==> number(ps[j]) != number(ps[i])
  }

  /** `x` is the first patient of `ps` with its number. */
  ghost predicate IsFirstOfNumber<T>(ps: seq<T>, x: T, number: T -> string) {
    exists i :: 0 <= i < |ps| && ps[i] == x && FirstOfNumber(ps, i, number)
  }

  /** Each kept patient is the first one in the loaded list with its number. */
  lemma {:induction false} DedupKeepsFirst<T>(ps: seq<T>, number: T -> string)
    ensures forall x :: x in DedupByNumber(ps, number) ==> IsFirstOfNumber(ps, x, number)
    decreases |ps|
  {
    if ps != [] {
      var n := |ps| - 1;
      var pre := ps[..n];
      var rest := DedupByNumber(pre, number);
      DedupKeepsFirst(pre, number);
      assert ps == pre + [ps[n]];
      forall x | x in rest
        ensures IsFirstOfNumber(ps, x, number)
      {
        var i :| 0 <= i < n && pre[i] == x && FirstOfNumber(pre, i, number);
        forall j | 0 <= j < i
          ensures number(ps[j]) != number(ps[i])
        {
          assert ps[j] == pre[j] && ps[i] == pre[i];
        }
        assert ps[i] == x && FirstOfNumber(ps, i, number);
      }
      if number(ps[n]) !in NumberSet(pre, number) {
        forall j | 0 <= j < n
          ensures number(ps[j]) != number(ps[n])
        {
          assert ps[j] == pre[j];
          assert number(pre[j]) in NumberSet(pre, number);
        }
        assert FirstOfNumber(ps, n, number);
        assert IsFirstOfNumber(ps, ps[n], number);
      }
    }
  }

  /** A truthy room number: present and not 0. */
  predicate RoomGiven(room: Option<int>) {
    room.Some? && room.value != 0
  }

  /** A patient's room number and name, as the room map reads them. */
  datatype RoomEntry = RoomEntry(room: Option<int>, name: string)

  /** Entry `i` holds room `r`: a truthy room number equal to `r`. */
  predicate HoldsRoom(es: seq<RoomEntry>, i: int, r: int) {
    0 <= i < |es| && RoomGiven(es[i].room) && es[i].room.value == r
  }

  /**
    `{p.room_number: p.name for p in patients if p.room_number}`: exactly the rooms some
    patient holds are present.
   */
  function RoomsOf(es: seq<RoomEntry>): (m: map<int, string>)
    ensures forall r :: r in m <==> exists i :: HoldsRoom(es, i, r)
    decreases |es|
  {
    if es == [] then map[]
    else
      var n := |es| - 1;
      var rest := RoomsOf(es[..n]);
      assert forall i, r :: HoldsRoom(es[..n], i, r) <==> 0 <= i < n && HoldsRoom(es, i, r);
      if RoomGiven(es[n].room) then
        assert HoldsRoom(es, n, es[n].room.value);
        rest[es[n].room.value := es[n].name]
      else
        assert forall r :: !HoldsRoom(es, n, r);
        rest
  }

  /** A room maps to the name of the last patient holding it: later entries overwrite earlier ones. */
  lemma {:induction false} RoomsOfLastWins(es: seq<RoomEntry>, i: int, r: int)
    requires HoldsRoom(es, i, r)
    requires forall j :: i < j < |es| ==> !HoldsRoom(es, j, r)
    ensures r in RoomsOf(es) && RoomsOf(es)[r] == es[i].name
    decreases |es|
  {
    var n := |es| - 1;
    if i < n {
      assert HoldsRoom(es[..n], i, r);
      forall j | i < j < n
        ensures !HoldsRoom(es[..n], j, r)
      {
        assert !HoldsRoom(es, j, r);
      }
      RoomsOfLastWins(es[..n], i, r);
      assert !HoldsRoom(es, n, r);
    }
  }
}
