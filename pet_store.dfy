/**
 * `usePetStore` (src/stores/pet.ts): the state fields and the actions that
 * update them in place. Each action is proved to leave the state that the
 * matching transition of `PetState` describes; what those transitions keep
 * is proved in `PetProperties`. The getters are the pure views of
 * `PetState` applied to `Snapshot()`.
 */
module PetStore {
  import opened Wrappers
  import opened Lists
  import opened StableSort
  import opened PetTypes
  import opened PetState

  class Store {
    /** The host's date parsing and calendar, fixed for the session. */
    const cal: Calendar

    var pet: Option<Pet>
    var vaccines: seq<Vaccine>
    var weightHistory: seq<WeightRecord>
    var healthRecords: seq<HealthRecord>
    var foodLogs: seq<FoodLog>

    /** The state as a value. */
    function Snapshot(): State
      reads this
    {
      State(pet, vaccines, weightHistory, healthRecords, foodLogs)
    }

    constructor (cal: Calendar)
      ensures this.cal == cal
      ensures Snapshot() == Initial
    {
      this.cal := cal;
      pet := None;
      vaccines := [];
      weightHistory := [];
      healthRecords := [];
      foodLogs := [];
    }

    method SetPet(p: Pet)
      modifies this
      ensures Snapshot() == old(Snapshot()).(pet := Some(p))
    {
      pet := Some(p);
    }

    method AddVaccine(v: Vaccine)
      modifies this
      ensures Snapshot() == PetState.AddVaccine(old(Snapshot()), v, cal)
    {
      var existing := Find(vaccines, SameVaccine(v));
      if existing.None? {
        vaccines := vaccines + [v];
        vaccines := SortBy(vaccines, VaccineDate(cal));
      }
    }

    method UpdateVaccine(id: string, v: Vaccine)
      modifies this
      ensures Snapshot() == PetState.UpdateVaccine(old(Snapshot()), id, v)
    {
      var index := IndexWhere(vaccines, IdIs(VaccineId, id));
      if index != -1 {
        vaccines := vaccines[index := v];
      }
    }

    method DeleteVaccine(id: string)
      modifies this
      ensures Snapshot() == PetState.DeleteVaccine(old(Snapshot()), id)
    {
      vaccines := Filter(vaccines, IdIsNot(VaccineId, id));
    }

    method AddWeightRecord(r: WeightRecord)
      modifies this
      ensures Snapshot() == PetState.AddWeightRecord(old(Snapshot()), r, cal)
    {
      var existing := Find(weightHistory, SameDayAs(r, cal));
      if existing.None? {
        weightHistory := weightHistory + [r];
        weightHistory := SortBy(weightHistory, WeightDate(cal));
        if pet.Some? {
          var latest := weightHistory[|weightHistory| - 1];
          pet := Some(pet.value.(weight := latest.weight));
        }
      }
    }

    method UpdateWeightRecord(id: string, r: WeightRecord)
      modifies this
      ensures Snapshot() == PetState.UpdateWeightRecord(old(Snapshot()), id, r, cal)
    {
      ghost var before := weightHistory;
      var index := IndexWhere(weightHistory, IdIs(WeightId, id));
      if index != -1 {
        weightHistory := weightHistory[index := r];
        weightHistory := SortBy(weightHistory, WeightDate(cal));
        assert weightHistory == ReplacedSorted(before, id, r, WeightId, WeightDate(cal));
        if pet.Some? && index == |weightHistory| - 1 {
          pet := Some(pet.value.(weight := r.weight));
        }
      }
    }

    method DeleteWeightRecord(id: string)
      modifies this
      ensures Snapshot() == PetState.DeleteWeightRecord(old(Snapshot()), id)
    {
      var initialLength := |weightHistory|;
      weightHistory := Filter(weightHistory, IdIsNot(WeightId, id));
      if pet.Some? && initialLength != |weightHistory| && |weightHistory| > 0 {
        var latest := weightHistory[|weightHistory| - 1];
        pet := Some(pet.value.(weight := latest.weight));
      } else if pet.Some? && |weightHistory| == 0 {
        pet := Some(pet.value.(weight := 0.0));
      }
    }

    method AddHealthRecord(r: HealthRecord)
      modifies this
      ensures Snapshot() == PetState.AddHealthRecord(old(Snapshot()), r, cal)
    {
      healthRecords := healthRecords + [r];
      healthRecords := SortBy(healthRecords, HealthDate(cal));
    }

    method UpdateHealthRecord(id: string, r: HealthRecord)
      modifies this
      ensures Snapshot() == PetState.UpdateHealthRecord(old(Snapshot()), id, r, cal)
    {
      var index := IndexWhere(healthRecords, IdIs(HealthId, id));
      if index != -1 {
        healthRecords := healthRecords[index := r];
        healthRecords := SortBy(healthRecords, HealthDate(cal));
      }
    }

    method DeleteHealthRecord(id: string)
      modifies this
      ensures Snapshot() == PetState.DeleteHealthRecord(old(Snapshot()), id)
    {
      healthRecords := Filter(healthRecords, IdIsNot(HealthId, id));
    }

    method AddFoodLog(log: FoodLog)
      modifies this
      ensures Snapshot() == PetState.AddFoodLog(old(Snapshot()), log, cal)
    {
      foodLogs := foodLogs + [log];
      foodLogs := SortBy(foodLogs, FoodDate(cal));
    }

    method UpdateFoodLog(id: string, log: FoodLog)
      modifies this
      ensures Snapshot() == PetState.UpdateFoodLog(old(Snapshot()), id, log, cal)
    {
      var index := IndexWhere(foodLogs, IdIs(FoodId, id));
      if index != -1 {
        foodLogs := foodLogs[index := log];
        foodLogs := SortBy(foodLogs, FoodDate(cal));
      }
    }

    method DeleteFoodLog(id: string)
      modifies this
      ensures Snapshot() == PetState.DeleteFoodLog(old(Snapshot()), id)
    {
      foodLogs := Filter(foodLogs, IdIsNot(FoodId, id));
    }
  }
}
