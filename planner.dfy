/**
  The calculator component's state and the handlers that edit it: the group
  settings, the hotel list with the selected hotel's id, the activity and
  flight lists, the meal plan and the transport switch. Each handler
  replaces one list with a mapped or filtered copy, as the component does
  through its state setters. New items get an id chosen by the caller, who
  must pick one not yet in use.
 */
module Planner {
  import opened KeyedList
  import opened TripTypes
  import Budget

  /** `activities.map(a => a.id === id ? { ...a, enabled: !a.enabled } : a)`. */
  function ToggleById(acts: seq<Activity>, id: string): (r: seq<Activity>)
    ensures |r| == |acts|
    ensures forall i :: 0 <= i < |acts| ==>
      r[i] == if acts[i].id == id then acts[i].(enabled := !acts[i].enabled) else acts[i]
  {
    if |acts| == 0 then []
    else [if acts[0].id == id then acts[0].(enabled := !acts[0].enabled) else acts[0]] + ToggleById(acts[1..], id)
  }

  /** Toggling the same activity twice restores the list. */
  lemma ToggleTwice(acts: seq<Activity>, id: string)
    ensures ToggleById(ToggleById(acts, id), id) == acts
  {
  }

  /** Toggling keeps every id where it was. */
  lemma ToggleKeepsIds(acts: seq<Activity>, id: string)
    ensures forall i :: 0 <= i < |acts| ==> ToggleById(acts, id)[i].id == acts[i].id
    ensures UniqueIds(acts, ActivityId) ==> UniqueIds(ToggleById(acts, id), ActivityId)
  {
  }

  /** Sum of the per-person prices of the enabled activities. */
  function EnabledTotal(acts: seq<Activity>): real {
    Budget.PriceTotal(Budget.EnabledActivities(acts))
  }

  lemma EnabledTotalCons(a: Activity, rest: seq<Activity>)
    ensures EnabledTotal([a] + rest) == (if a.enabled then a.pricePerPerson else 0.0) + EnabledTotal(rest)
  {
    Budget.EnabledAppend([a], rest);
    Budget.PriceTotalAppend(Budget.EnabledActivities([a]), Budget.EnabledActivities(rest));
    assert Budget.EnabledActivities([a]) == (if a.enabled then [a] else []) + Budget.EnabledActivities([]);
  }

  lemma {:induction false} ToggleAbsentId(acts: seq<Activity>, id: string)
    requires !HasId(acts, ActivityId, id)
    ensures ToggleById(acts, id) == acts
  {
    if |acts| > 0 {
      assert !HasId(acts[1..], ActivityId, id);
      ToggleAbsentId(acts[1..], id);
    }
  }

  /**
    Toggling one activity changes the enabled price total by exactly its
    price: it is taken off when the activity was enabled and added otherwise.
   */
  lemma {:induction false} ToggleChangesEnabledTotal(acts: seq<Activity>, k: nat)
    requires UniqueIds(acts, ActivityId) && k < |acts|
    ensures EnabledTotal(ToggleById(acts, acts[k].id))
         == EnabledTotal(acts) + (if acts[k].enabled then -acts[k].pricePerPerson else acts[k].pricePerPerson)
  {
    var id := acts[k].id;
    var t := ToggleById(acts, id);
    assert acts == [acts[0]] + acts[1..];
    assert t == [t[0]] + ToggleById(acts[1..], id);
    EnabledTotalCons(acts[0], acts[1..]);
    EnabledTotalCons(t[0], ToggleById(acts[1..], id));
    if k == 0 {
      assert !HasId(acts[1..], ActivityId, id) by {
        forall i | 0 <= i < |acts[1..]| ensures acts[1..][i].id != id {
          assert acts[1..][i] == acts[i + 1];
        }
      }
      ToggleAbsentId(acts[1..], id);
    } else {
      assert acts[1..][k - 1] == acts[k];
      assert UniqueIds(acts[1..], ActivityId) by {
        forall i, j | 0 <= i < j < |acts[1..]| ensures acts[1..][i].id != acts[1..][j].id {
          assert acts[1..][i] == acts[i + 1] && acts[1..][j] == acts[j + 1];
        }
      }
      ToggleChangesEnabledTotal(acts[1..], k - 1);
    }
  }

  /** The item `addHotel` appends. */
  function NewHotel(id: string): (h: Hotel)
    ensures h.id == id && h.pricePerPerson == 0.0 && h.pricePerPair == 0.0 && !h.includesBreakfast
  {
    Hotel(id, "Новый отель", 0.0, 0.0, false, false, "", "")
  }

  /** The item `addActivity` appends. */
  function NewActivity(id: string): (a: Activity)
    ensures a.id == id && a.enabled && a.pricePerPerson == 0.0
  {
    Activity(id, "Новая активность", 0.0, true, "", Some(""))
  }

  /** The item `addFlight` appends. */
  function NewFlight(id: string): (f: Flight)
    ensures f.id == id && f.price == 0.0
  {
    Flight(id, "Новый рейс", "", TripStart, "10:00", 0.0, "")
  }

  class TripPlanner {
    var settings: Settings
    var hotels: seq<Hotel>
    var selectedHotelId: string
    var activities: seq<Activity>
    var flights: seq<Flight>
    var mealOption: MealOption
    var mealPrices: Meals
    var includeTransport: bool

    /** There is always a hotel to fall back on, and ids identify the items of every list. */
    ghost predicate Valid()
      reads this
    {
      && |hotels| > 0
      && UniqueIds(hotels, HotelId)
      && UniqueIds(activities, ActivityId)
      && UniqueIds(flights, FlightId)
    }

    /** The component's initial state. */
    constructor ()
      ensures Valid()
      ensures settings == Settings(24, 2, 0.0, 0.0)
      ensures hotels == InitialHotels && selectedHotelId == "dorsett"
      ensures activities == InitialActivities && flights == InitialFlights
      ensures mealOption == NoMeals && mealPrices == BaseMealPrices && includeTransport
    {
      settings := Settings(24, 2, 0.0, 0.0);
      hotels := InitialHotels;
      selectedHotelId := "dorsett";
      activities := InitialActivities;
      flights := InitialFlights;
      mealOption := NoMeals;
      mealPrices := BaseMealPrices;
      includeTransport := true;
    }

    /** The hotel the budget is computed for: the selected one, or the first when the id is stale. */
    function SelectedHotel(): (h: Hotel)
      reads this
      requires Valid()
      ensures h in hotels
      ensures HasId(hotels, HotelId, selectedHotelId) ==> h.id == selectedHotelId
      ensures !HasId(hotels, HotelId, selectedHotelId) ==> h == hotels[0]
    {
      Budget.SelectedHotel(hotels, selectedHotelId)
    }

    /** Everything the calculators read, taken from the current state. */
    function CurrentTrip(): (t: Trip)
      reads this
      requires Valid()
      ensures t.hotel in hotels
      ensures t.settings == settings && t.activities == activities && t.flights == flights
      ensures t.fares == TransportFares
      ensures t.hotel == SelectedHotel()
      ensures t.mealOption == mealOption && t.mealPrices == mealPrices && t.includeTransport == includeTransport
    {
      Trip(settings, SelectedHotel(), TransportFares, includeTransport, mealOption, mealPrices, activities, flights)
    }

    method ToggleActivity(id: string)
      requires Valid()
      modifies this`activities
      ensures Valid()
      ensures activities == ToggleById(old(activities), id)
    {
      ToggleKeepsIds(activities, id);
      activities := ToggleById(activities, id);
    }

    method AddHotel(id: string) returns (h: Hotel)
      requires Valid() && !HasId(hotels, HotelId, id)
      modifies this`hotels
      ensures Valid()
      ensures h == NewHotel(id) && hotels == old(hotels) + [h]
    {
      h := NewHotel(id);
      AppendFreshUnique(hotels, HotelId, h);
      hotels := hotels + [h];
    }

    method UpdateHotel(hotel: Hotel)
      requires Valid()
      modifies this`hotels
      ensures Valid()
      ensures hotels == ReplaceById(old(hotels), HotelId, hotel)
    {
      ReplaceKeepsIds(hotels, HotelId, hotel);
      hotels := ReplaceById(hotels, HotelId, hotel);
    }

    /**
      Refuses to delete the last hotel. When the selected hotel is deleted
      the selection moves to the id the list started with, which is the
      deleted one when the first hotel is deleted; the fallback in
      SelectedHotel then picks the first remaining hotel.
     */
    method DeleteHotel(id: string)
      requires Valid()
      modifies this`hotels, this`selectedHotelId
      ensures Valid()
      ensures |old(hotels)| <= 1 ==> hotels == old(hotels) && selectedHotelId == old(selectedHotelId)
      ensures |old(hotels)| > 1 ==> hotels == RemoveById(old(hotels), HotelId, id)
      ensures |old(hotels)| > 1 ==>
        selectedHotelId == if old(selectedHotelId) == id then old(hotels)[0].id else old(selectedHotelId)
      ensures |old(hotels)| > 1 && HasId(old(hotels), HotelId, id) ==> |hotels| == |old(hotels)| - 1
      ensures |old(hotels)| > 1 && old(selectedHotelId) == id == old(hotels)[0].id ==> SelectedHotel() == hotels[0]
    {
      if |hotels| <= 1 {
        return;
      }
      var first := hotels[0];
      if HasId(hotels, HotelId, id) {
        RemovePresentUnique(hotels, HotelId, id);
      } else {
        RemoveAbsentId(hotels, HotelId, id);
      }
      RemoveKeepsUnique(hotels, HotelId, id);
      hotels := RemoveById(hotels, HotelId, id);
      if selectedHotelId == id {
        selectedHotelId := first.id;
      }
    }

    method AddActivity(id: string) returns (a: Activity)
      requires Valid() && !HasId(activities, ActivityId, id)
      modifies this`activities
      ensures Valid()
      ensures a == NewActivity(id) && activities == old(activities) + [a]
    {
      a := NewActivity(id);
      AppendFreshUnique(activities, ActivityId, a);
      activities := activities + [a];
    }

    method UpdateActivity(activity: Activity)
      requires Valid()
      modifies this`activities
      ensures Valid()
      ensures activities == ReplaceById(old(activities), ActivityId, activity)
    {
      ReplaceKeepsIds(activities, ActivityId, activity);
      activities := ReplaceById(activities, ActivityId, activity);
    }

    method DeleteActivity(id: string)
      requires Valid()
      modifies this`activities
      ensures Valid()
      ensures activities == RemoveById(old(activities), ActivityId, id)
    {
      RemoveKeepsUnique(activities, ActivityId, id);
      activities := RemoveById(activities, ActivityId, id);
    }

    method AddFlight(id: string) returns (f: Flight)
      requires Valid() && !HasId(flights, FlightId, id)
      modifies this`flights
      ensures Valid()
      ensures f == NewFlight(id) && flights == old(flights) + [f]
    {
      f := NewFlight(id);
      AppendFreshUnique(flights, FlightId, f);
      flights := flights + [f];
    }

    method UpdateFlight(flight: Flight)
      requires Valid()
      modifies this`flights
      ensures Valid()
      ensures flights == ReplaceById(old(flights), FlightId, flight)
    {
      ReplaceKeepsIds(flights, FlightId, flight);
      flights := ReplaceById(flights, FlightId, flight);
    }

    method DeleteFlight(id: string)
      requires Valid()
      modifies this`flights
      ensures Valid()
      ensures flights == RemoveById(old(flights), FlightId, id)
    {
      RemoveKeepsUnique(flights, FlightId, id);
      flights := RemoveById(flights, FlightId, id);
    }
  }

  /** A new activity is free, so adding it leaves the activities bill unchanged; deleting it again restores the list. */
  lemma AddedActivityIsFree(acts: seq<Activity>, id: string, people: nat)
    requires !HasId(acts, ActivityId, id)
    ensures Budget.ActivitiesCost(acts + [NewActivity(id)], people) == Budget.ActivitiesCost(acts, people)
    ensures RemoveById(acts + [NewActivity(id)], ActivityId, id) == acts
  {
    Budget.EnabledAppend(acts, [NewActivity(id)]);
    Budget.PriceTotalAppend(Budget.EnabledActivities(acts), [NewActivity(id)]);
    assert Budget.EnabledActivities([NewActivity(id)]) == [NewActivity(id)] + Budget.EnabledActivities([]);
    RemoveUndoesAppend(acts, ActivityId, NewActivity(id));
  }

  /**
    Deleting the selected hotel in a two-hotel list, whichever of the two it
    is, leaves the other one selected.
   */
  method DeleteSelectedOfTwo(p: TripPlanner, k: nat)
    requires p.Valid() && |p.hotels| == 2 && k < 2 && p.selectedHotelId == p.hotels[k].id
    modifies p
    ensures p.Valid() && p.hotels == [old(p.hotels[1 - k])] && p.SelectedHotel() == old(p.hotels[1 - k])
  {
    var gone, keep := p.hotels[k], p.hotels[1 - k];
    RemoveFromPair(p.hotels, HotelId, k);
    p.DeleteHotel(gone.id);
  }
}
