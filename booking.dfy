/**
 * The booking store shared by every checkout screen: an id-keyed list of passenger
 * records, the contact slot, the flight slot and the wizard step.
 */
module Booking {
  import opened Wrappers

  datatype Passenger = Passenger(
    id: int,
    title: string,
    gender: string,
    firstName: string,
    lastName: string,
    birthDay: string,
    birthMonth: string,
    birthYear: string,
    nationality: string,
    passportNumber: string,
    expiryDay: string,
    expiryMonth: string,
    expiryYear: string,
    frequentFlyerNumber: string)

  /** A partial passenger record: each field is `Some` exactly when the patch carries it. */
  datatype PassengerPatch = PassengerPatch(
    id: Option<int>,
    title: Option<string>,
    gender: Option<string>,
    firstName: Option<string>,
    lastName: Option<string>,
    birthDay: Option<string>,
    birthMonth: Option<string>,
    birthYear: Option<string>,
    nationality: Option<string>,
    passportNumber: Option<string>,
    expiryDay: Option<string>,
    expiryMonth: Option<string>,
    expiryYear: Option<string>,
    frequentFlyerNumber: Option<string>)

  datatype Contact = Contact(email: string, phone: string, countryCode: string)

  datatype Layover = Layover(city: string, duration: string)

  datatype Flight = Flight(
    from: string, to: string, date: string, departure: string, arrival: string,
    duration: string, stops: int, layover: Option<Layover>)

  /** The whole store value; every mutator replaces it with an updated copy. */
  datatype BookingState = BookingState(
    passengers: seq<Passenger>,
    contact: Option<Contact>,
    flight: Option<Flight>,
    currentStep: int)

  /** A record with the given id and every text field empty. */
  function BlankPassenger(id: int): Passenger {
    Passenger(id, "", "", "", "", "", "", "", "", "", "", "", "", "")
  }

  predicate IsBlank(p: Passenger) {
    && p.title == "" && p.gender == "" && p.firstName == "" && p.lastName == ""
    && p.birthDay == "" && p.birthMonth == "" && p.birthYear == "" && p.nationality == ""
    && p.passportNumber == "" && p.expiryDay == "" && p.expiryMonth == "" && p.expiryYear == ""
    && p.frequentFlyerNumber == ""
  }

  const DefaultFlight: Flight :=
    Flight("London", "New York", "Wed, 15 Jan", "14:25", "18:30", "8h 5m", 1,
           Some(Layover("Amsterdam", "1h 25m")))

  const InitialState: BookingState :=
    BookingState([BlankPassenger(1), BlankPassenger(2)], None, Some(DefaultFlight), 1)

  /** The ids of the passengers, in list order. */
  function Ids(ps: seq<Passenger>): (ids: seq<int>)
    ensures |ids| == |ps|
    ensures forall k :: 0 <= k < |ps| ==> ids[k] == ps[k].id
  {
    seq(|ps|, k requires 0 <= k < |ps| => ps[k].id)
  }

  predicate UniqueIds(ps: seq<Passenger>) {
    forall i, j :: 0 <= i < j < |ps| ==> ps[i].id != ps[j].id
  }

  predicate HasId(ps: seq<Passenger>, id: int) {
    exists k :: 0 <= k < |ps| && ps[k].id == id
  }

  /** The initial store holds two blank passengers with ids 1 and 2, no contact, step 1. */
  lemma InitialStateShape()
    ensures Ids(InitialState.passengers) == [1, 2]
    ensures forall p :: p in InitialState.passengers ==> IsBlank(p)
    ensures UniqueIds(InitialState.passengers)
    ensures InitialState.contact == None && InitialState.currentStep == 1
  {
  }

  // ---------------------------------------------------------------- updatePassenger

  /** `{ ...passenger, ...data }`: a field carried by the patch overrides the record's. */
  function Merge(p: Passenger, patch: PassengerPatch): Passenger {
    Passenger(
      patch.id.GetOr(p.id),
      patch.title.GetOr(p.title),
      patch.gender.GetOr(p.gender),
      patch.firstName.GetOr(p.firstName),
      patch.lastName.GetOr(p.lastName),
      patch.birthDay.GetOr(p.birthDay),
      patch.birthMonth.GetOr(p.birthMonth),
      patch.birthYear.GetOr(p.birthYear),
      patch.nationality.GetOr(p.nationality),
      patch.passportNumber.GetOr(p.passportNumber),
      patch.expiryDay.GetOr(p.expiryDay),
      patch.expiryMonth.GetOr(p.expiryMonth),
      patch.expiryYear.GetOr(p.expiryYear),
      patch.frequentFlyerNumber.GetOr(p.frequentFlyerNumber))
  }

  /** `passengers.map(p => p.id === id ? { ...p, ...patch } : p)` */
  function UpdatedPassengers(ps: seq<Passenger>, id: int, patch: PassengerPatch): seq<Passenger> {
    if ps == [] then []
    else [if ps[0].id == id then Merge(ps[0], patch) else ps[0]] + UpdatedPassengers(ps[1..], id, patch)
  }

  /** The update keeps length and order, merges the patch into every record with the id
      and leaves every other record as it was. */
  lemma {:induction false} UpdatedPassengersShape(ps: seq<Passenger>, id: int, patch: PassengerPatch)
    ensures |UpdatedPassengers(ps, id, patch)| == |ps|
    ensures forall k :: 0 <= k < |ps| ==>
      UpdatedPassengers(ps, id, patch)[k] == if ps[k].id == id then Merge(ps[k], patch) else ps[k]
  {
    if ps != [] {
      UpdatedPassengersShape(ps[1..], id, patch);
    }
  }

  /** Updating an id that no passenger has changes nothing. */
  lemma UpdateOfAbsentIdIsNoOp(ps: seq<Passenger>, id: int, patch: PassengerPatch)
    requires !HasId(ps, id)
    ensures UpdatedPassengers(ps, id, patch) == ps
  {
    UpdatedPassengersShape(ps, id, patch);
  }

  /** A patch that omits the id or repeats it keeps every id where it was. */
  lemma UpdateKeepsIds(ps: seq<Passenger>, id: int, patch: PassengerPatch)
    requires patch.id == None || patch.id == Some(id)
    ensures Ids(UpdatedPassengers(ps, id, patch)) == Ids(ps)
    ensures UniqueIds(ps) ==> UniqueIds(UpdatedPassengers(ps, id, patch))
  {
    UpdatedPassengersShape(ps, id, patch);
    var r := UpdatedPassengers(ps, id, patch);
    assert forall k :: 0 <= k < |ps| ==> r[k].id == ps[k].id;
  }

  /** A patch carrying another passenger's id can make two records share an id. */
  lemma UpdateWithForeignIdCanDuplicate()
    ensures var ps := [BlankPassenger(1), BlankPassenger(2)];
            var patch := PassengerPatch(Some(2), None, None, None, None, None, None, None,
                                        None, None, None, None, None, None);
            UniqueIds(ps) && !UniqueIds(UpdatedPassengers(ps, 1, patch))
  {
    var ps := [BlankPassenger(1), BlankPassenger(2)];
    var patch := PassengerPatch(Some(2), None, None, None, None, None, None, None,
                                None, None, None, None, None, None);
    UpdatedPassengersShape(ps, 1, patch);
    var r := UpdatedPassengers(ps, 1, patch);
    assert r[0].id == 2 && r[1].id == 2;
  }

  // ---------------------------------------------------------------- removePassenger

  /** `passengers.filter(p => p.id !== id)` */
  function WithoutPassenger(ps: seq<Passenger>, id: int): (r: seq<Passenger>)
    ensures |r| <= |ps|
  {
    if ps == [] then []
    else (if ps[0].id != id then [ps[0]] else []) + WithoutPassenger(ps[1..], id)
  }

  /** A record survives removal exactly when it was present and has another id. */
  lemma {:induction false} WithoutPassengerContents(ps: seq<Passenger>, id: int)
    ensures forall p :: p in WithoutPassenger(ps, id) <==> p in ps && p.id != id
  {
    if ps != [] {
      WithoutPassengerContents(ps[1..], id);
      assert forall p :: p in ps <==> p == ps[0] || p in ps[1..];
    }
  }

  /** Removal works element by element, so the survivors keep their order. */
  lemma {:induction false} WithoutPassengerAppend(a: seq<Passenger>, b: seq<Passenger>, id: int)
    ensures WithoutPassenger(a + b, id) == WithoutPassenger(a, id) + WithoutPassenger(b, id)
  {
    if a == [] {
      assert a + b == b;
    } else {
      assert (a + b)[1..] == a[1..] + b;
      WithoutPassengerAppend(a[1..], b, id);
    }
  }

  lemma {:induction false} RemoveOfAbsentIdIsNoOp(ps: seq<Passenger>, id: int)
    requires !HasId(ps, id)
    ensures WithoutPassenger(ps, id) == ps
  {
    if ps != [] {
      RemoveOfAbsentIdIsNoOp(ps[1..], id);
    }
  }

  lemma UniqueTail(ps: seq<Passenger>)
    requires ps != [] && UniqueIds(ps)
    ensures UniqueIds(ps[1..])
    ensures forall p :: p in ps[1..] ==> p.id != ps[0].id
  {
    var tail := ps[1..];
    forall i, j | 0 <= i < j < |tail| ensures tail[i].id != tail[j].id {
      assert tail[i] == ps[i + 1] && tail[j] == ps[j + 1];
    }
    forall p | p in tail ensures p.id != ps[0].id {
      var k :| 0 <= k < |tail| && tail[k] == p;
      assert ps[k + 1] == p;
    }
  }

  /** Putting a record in front of a list with unique ids and none of its id keeps the ids unique. */
  lemma UniqueCons(p: Passenger, ps: seq<Passenger>)
    requires UniqueIds(ps) && forall q :: q in ps ==> q.id != p.id
    ensures UniqueIds([p] + ps)
  {
    var r := [p] + ps;
    forall i, j | 0 <= i < j < |r| ensures r[i].id != r[j].id {
      assert r[j] == ps[j - 1];
      if i > 0 {
        assert r[i] == ps[i - 1];
      }
    }
  }

  /** With unique ids, removing a present id drops exactly one record; ids stay unique. */
  lemma {:induction false} RemoveWithUniqueIds(ps: seq<Passenger>, id: int)
    requires UniqueIds(ps)
    ensures UniqueIds(WithoutPassenger(ps, id))
    ensures HasId(ps, id) ==> |WithoutPassenger(ps, id)| == |ps| - 1
  {
    if ps != [] {
      var tail := ps[1..];
      UniqueTail(ps);
      RemoveWithUniqueIds(tail, id);
      if ps[0].id != id {
        WithoutPassengerContents(tail, id);
        UniqueCons(ps[0], WithoutPassenger(tail, id));
        if HasId(ps, id) {
          var k :| 0 <= k < |ps| && ps[k].id == id;
          assert tail[k - 1].id == id;
        }
      } else {
        assert !HasId(tail, id) by {
          forall k | 0 <= k < |tail| ensures tail[k].id != id {
            assert tail[k] in tail;
          }
        }
        RemoveOfAbsentIdIsNoOp(tail, id);
      }
    }
  }

  // ---------------------------------------------------------------- getPassenger

  /** `passengers.find(p => p.id === id)`: the first record with the id, if any. */
  function FindPassenger(ps: seq<Passenger>, id: int): (r: Option<Passenger>)
    ensures r.None? <==> !HasId(ps, id)
    ensures r.Some? ==> exists k :: 0 <= k < |ps| && ps[k] == r.value && ps[k].id == id
                                     && forall j :: 0 <= j < k ==> ps[j].id != id
  {
    if ps == [] then None
    else if ps[0].id == id then Some(ps[0])
    else
      var r := FindPassenger(ps[1..], id);
      assert HasId(ps, id) ==> HasId(ps[1..], id) by {
        if HasId(ps, id) {
          var k :| 0 <= k < |ps| && ps[k].id == id;
          assert ps[1..][k - 1].id == id;
        }
      }
      assert r.Some? ==> HasId(ps, id) by {
        if r.Some? {
          var k :| 0 <= k < |ps[1..]| && ps[1..][k].id == id;
          assert ps[k + 1].id == id;
        }
      }
      assert r.Some? ==> exists k :: 0 <= k < |ps| && ps[k] == r.value && ps[k].id == id
                                     && forall j :: 0 <= j < k ==> ps[j].id != id by {
        if r.Some? {
          var k :| 0 <= k < |ps[1..]| && ps[1..][k] == r.value && ps[1..][k].id == id
                   && forall j :: 0 <= j < k ==> ps[1..][j].id != id;
          assert ps[k + 1] == r.value;
          assert forall j :: 1 <= j < k + 1 ==> ps[j] == ps[1..][j - 1];
        }
      }
      r
  }

  // ---------------------------------------------------------------- addPassenger

  /** After an update that keeps the id, looking the id up finds the first record with it,
      merged with the patch. */
  lemma {:induction false} FindAfterUpdate(ps: seq<Passenger>, id: int, patch: PassengerPatch)
    requires patch.id == None || patch.id == Some(id)
    ensures FindPassenger(UpdatedPassengers(ps, id, patch), id) ==
      if FindPassenger(ps, id).Some? then Some(Merge(FindPassenger(ps, id).value, patch)) else None
  {
    if ps != [] {
      var after := UpdatedPassengers(ps, id, patch);
      if ps[0].id == id {
        assert after[0] == Merge(ps[0], patch) && after[0].id == id;
      } else {
        assert after[0] == ps[0];
        assert after[1..] == UpdatedPassengers(ps[1..], id, patch);
        FindAfterUpdate(ps[1..], id, patch);
      }
    }
  }

  /** The largest id in a non-empty list. */
  function MaxId(ps: seq<Passenger>): (m: int)
    requires ps != []
    ensures forall k :: 0 <= k < |ps| ==> ps[k].id <= m
    ensures exists k :: 0 <= k < |ps| && ps[k].id == m
  {
    if |ps| == 1 then ps[0].id
    else
      var rest := MaxId(ps[1..]);
      assert forall k :: 1 <= k < |ps| ==> ps[k] == ps[1..][k - 1];
      if ps[0].id >= rest then ps[0].id else rest
  }

  /**
   * The id `addPassenger` gives the new record: one more than the largest present id.
   * On an empty list the source computes `Math.max()`, which is not an id (see
   * `JsNewPassengerId`); here the empty list gives 1, the first id of the initial state.
   */
  function NextId(ps: seq<Passenger>): (n: int)
    ensures forall k :: 0 <= k < |ps| ==> ps[k].id < n
    ensures ps != [] ==> HasId(ps, n - 1)
    ensures ps == [] ==> n == 1
  {
    if ps == [] then 1 else MaxId(ps) + 1
  }

  /** A JavaScript number as far as `Math.max(...ids) + 1` needs one. */
  datatype JsNumber = NegativeInfinity | Finite(n: int)

  /** `Math.max(...ids) + 1` as written: `Math.max()` of no arguments is `-Infinity`. */
  function JsNewPassengerId(ps: seq<Passenger>): JsNumber {
    if ps == [] then NegativeInfinity else Finite(MaxId(ps) + 1)
  }

  /** As written, adding to an empty list produces `-Infinity` rather than an integer id;
      on every non-empty list it agrees with `NextId`. */
  lemma JsNewPassengerIdOnEmptyList(ps: seq<Passenger>)
    ensures ps == [] ==> JsNewPassengerId(ps) == NegativeInfinity
    ensures ps != [] ==> JsNewPassengerId(ps) == Finite(NextId(ps))
  {
  }

  /** Appending a blank record with `NextId` keeps the ids unique; the new id is above all. */
  lemma AddKeepsUniqueIds(ps: seq<Passenger>)
    requires UniqueIds(ps)
    ensures UniqueIds(ps + [BlankPassenger(NextId(ps))])
  {
    var r := ps + [BlankPassenger(NextId(ps))];
    forall i, j | 0 <= i < j < |r| ensures r[i].id != r[j].id {
      if j == |ps| {
        assert r[i] == ps[i];
      } else {
        assert r[i] == ps[i] && r[j] == ps[j];
      }
    }
  }

  /** Ids are not reserved: after the highest-numbered passenger is removed, the next
      added passenger receives that same id again. */
  lemma RemovedIdIsReused(ps: seq<Passenger>)
    requires |ps| == 3 && ps[0].id == 1 && ps[1].id == 2 && ps[2].id == 3
    ensures NextId(ps) == 4
    ensures NextId(WithoutPassenger(ps, 3)) == 3
  {
    assert WithoutPassenger(ps[2..], 3) == [] by {
      assert ps[2..][1..] == [];
    }
    assert WithoutPassenger(ps[1..], 3) == [ps[1]] by {
      assert ps[1..][1..] == ps[2..];
    }
    assert WithoutPassenger(ps, 3) == [ps[0], ps[1]];
  }

  // ---------------------------------------------------------------- the store

  /** The provider's state: one `state` value, replaced as a whole by each mutator. */
  class BookingStore {
    var state: BookingState

    constructor ()
      ensures state == InitialState
    {
      state := InitialState;
    }

    method UpdatePassenger(passengerId: int, data: PassengerPatch)
      modifies this
      ensures state == old(state).(passengers := UpdatedPassengers(old(state).passengers, passengerId, data))
      ensures (data.id == None || data.id == Some(passengerId)) && old(UniqueIds(state.passengers))
              ==> UniqueIds(state.passengers)
    {
      if data.id == None || data.id == Some(passengerId) {
        UpdateKeepsIds(state.passengers, passengerId, data);
      }
      state := state.(passengers := UpdatedPassengers(state.passengers, passengerId, data));
    }

    method UpdateContact(data: Contact)
      modifies this
      ensures state == old(state).(contact := Some(data))
    {
      state := state.(contact := Some(data));
    }

    method UpdateFlight(data: Flight)
      modifies this
      ensures state == old(state).(flight := Some(data))
    {
      state := state.(flight := Some(data));
    }

    /** An unconditional set: the store does not check the range of `step`. */
    method SetCurrentStep(step: int)
      modifies this
      ensures state == old(state).(currentStep := step)
    {
      state := state.(currentStep := step);
    }

    method AddPassenger()
      modifies this
      ensures state == old(state).(passengers := old(state).passengers + [BlankPassenger(NextId(old(state).passengers))])
      ensures old(UniqueIds(state.passengers)) ==> UniqueIds(state.passengers)
    {
      var newId := NextId(state.passengers);
      if UniqueIds(state.passengers) {
        AddKeepsUniqueIds(state.passengers);
      }
      state := state.(passengers := state.passengers + [BlankPassenger(newId)]);
    }

    method RemovePassenger(passengerId: int)
      modifies this
      ensures state == old(state).(passengers := WithoutPassenger(old(state).passengers, passengerId))
      ensures old(UniqueIds(state.passengers)) ==> UniqueIds(state.passengers)
    {
      if UniqueIds(state.passengers) {
        RemoveWithUniqueIds(state.passengers, passengerId);
      }
      state := state.(passengers := WithoutPassenger(state.passengers, passengerId));
    }

    /** The first stored record with the id, or nothing when no record has it. */
    function GetPassenger(passengerId: int): (r: Option<Passenger>)
      reads this
      ensures r.None? <==> !HasId(state.passengers, passengerId)
      ensures r.Some? ==> exists k :: 0 <= k < |state.passengers| && state.passengers[k] == r.value
                                     && r.value.id == passengerId
                                     && forall j :: 0 <= j < k ==> state.passengers[j].id != passengerId
    {
      FindPassenger(state.passengers, passengerId)
    }
  }
}
