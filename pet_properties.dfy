/**
 * What the store's actions keep, how the pet's weight relates to the getters,
 * worked examples, and two places where the code as
 * written does not keep what the rest of it keeps.
 */
module PetProperties {
  import opened Wrappers
  import opened Lists
  import opened StableSort
  import opened PetTypes
  import opened PetState

  // ---------------------------------------------------------------- invariant preservation

  lemma VaccineActionsKeepInvariant(st: State, v: Vaccine, id: string, cal: Calendar)
    requires Invariant(st, cal)
    ensures Invariant(AddVaccine(st, v, cal), cal)
    ensures Invariant(DeleteVaccine(st, id), cal)
    ensures Invariant(UpdateVaccineSorted(st, id, v, cal), cal)
  {
    FilterKeepsSorted(st.vaccines, IdIsNot(VaccineId, id), VaccineDate(cal));
    var i := IndexWhere(st.vaccines, IdIs(VaccineId, id));
    if i != -1 {
      assert FirstWithId(st.vaccines, id, VaccineId, i);
    }
  }

  lemma WeightActionsKeepInvariant(st: State, w: WeightRecord, id: string, cal: Calendar)
    requires Invariant(st, cal)
    ensures Invariant(AddWeightRecord(st, w, cal), cal)
    ensures Invariant(DeleteWeightRecord(st, id), cal)
    ensures Invariant(UpdateWeightRecordSynced(st, id, w, cal), cal)
  {
    FilterKeepsSorted(st.weightHistory, IdIsNot(WeightId, id), WeightDate(cal));
  }

  lemma HealthActionsKeepInvariant(st: State, h: HealthRecord, id: string, cal: Calendar)
    requires Invariant(st, cal)
    ensures Invariant(AddHealthRecord(st, h, cal), cal)
    ensures Invariant(UpdateHealthRecord(st, id, h, cal), cal)
    ensures Invariant(DeleteHealthRecord(st, id), cal)
  {
    FilterKeepsSorted(st.healthRecords, IdIsNot(HealthId, id), HealthDate(cal));
    var i := IndexWhere(st.healthRecords, IdIs(HealthId, id));
    if i != -1 {
      assert FirstWithId(st.healthRecords, id, HealthId, i);
    }
  }

  lemma FoodActionsKeepInvariant(st: State, f: FoodLog, id: string, cal: Calendar)
    requires Invariant(st, cal)
    ensures Invariant(AddFoodLog(st, f, cal), cal)
    ensures Invariant(UpdateFoodLog(st, id, f, cal), cal)
    ensures Invariant(DeleteFoodLog(st, id), cal)
  {
    FilterKeepsSorted(st.foodLogs, IdIsNot(FoodId, id), FoodDate(cal));
    var i := IndexWhere(st.foodLogs, IdIs(FoodId, id));
    if i != -1 {
      assert FirstWithId(st.foodLogs, id, FoodId, i);
    }
  }

  /** The duplicate checks do their job: no two vaccines share name and date, no two weights a day. */
  lemma AddAndDeleteKeepNoDuplicates(st: State, v: Vaccine, w: WeightRecord, id: string, cal: Calendar)
    requires NoDuplicates(st, cal)
    ensures NoDuplicates(AddVaccine(st, v, cal), cal)
    ensures NoDuplicates(AddWeightRecord(st, w, cal), cal)
    ensures NoDuplicates(DeleteVaccine(st, id), cal)
    ensures NoDuplicates(DeleteWeightRecord(st, id), cal)
  {
    if !VaccineRecorded(st.vaccines, v) {
      AppendKeepsDistinct(st.vaccines, v, NameAndDate);
      SortByKeepsDistinct(st.vaccines + [v], VaccineDate(cal), NameAndDate);
    }
    if !DayRecorded(st.weightHistory, w, cal) {
      AppendKeepsDistinct(st.weightHistory, w, WeightDay(cal));
      SortByKeepsDistinct(st.weightHistory + [w], WeightDate(cal), WeightDay(cal));
    }
    FilterKeepsDistinct(st.vaccines, IdIsNot(VaccineId, id), NameAndDate);
    FilterKeepsDistinct(st.weightHistory, IdIsNot(WeightId, id), WeightDay(cal));
  }

  lemma AppendKeepsDistinct<T, K>(s: seq<T>, x: T, f: T -> K)
    requires DistinctBy(s, f)
    requires forall i :: 0 <= i < |s| ==> f(s[i]) != f(x)
    ensures DistinctBy(s + [x], f)
  {
    var r := s + [x];
    forall i, j | 0 <= i < j < |r| ensures f(r[i]) != f(r[j]) {
      assert r[i] == s[i];
    }
  }

  // ---------------------------------------------------------------- the pet's weight and the getters

  /** In a date-ordered history with one record per day, only the last record is a latest one. */
  lemma OnlyLastIsLatest(h: seq<WeightRecord>, i: int, cal: Calendar)
    requires SortedBy(h, WeightDate(cal)) && DistinctBy(h, WeightDay(cal))
    requires IsLatest(h, i, cal)
    ensures i == |h| - 1
  {
    var n := |h| - 1;
    assert cal.time(h[i].date) <= cal.time(h[n].date) by {
      if i < n {
        assert WeightDate(cal)(h[i]) <= WeightDate(cal)(h[n]);
      }
    }
    // Both are latest, so they share an instant, hence a day; distinct days leave one index.
    assert WeightDay(cal)(h[i]) == WeightDay(cal)(h[n]);
  }

  /**
   * Where the weight history is sorted, one record per day, and the pet's
   * weight is synchronised with it, `getLatestWeight()` reads the pet's weight.
   */
  lemma SyncedWeightIsLatest(st: State, cal: Calendar)
    requires Invariant(st, cal) && DistinctBy(st.weightHistory, WeightDay(cal))
    requires st.pet.Some? && st.weightHistory != []
    ensures LatestWeight(st, cal) == Some(st.pet.value.weight)
  {
    var h := st.weightHistory;
    var latest := LatestWeight(st, cal);
    var i :| IsLatest(h, i, cal) && h[i].weight == latest.value;
    OnlyLastIsLatest(h, i, cal);
  }

  // ---------------------------------------------------------------- scenarios

  const Rex: Pet := Pet("p1", "Rex", "", "Beagle", "2020-05-01", 0.0, Owner("Ana", "0600000000", ""), "brown", "medium")
  const January: WeightRecord := WeightRecord("w1", "2024-01-01", 5.0, None)
  const March: WeightRecord := WeightRecord("w2", "2024-03-01", 6.2, None)

  lemma AddFirstWeight(st: State, w: WeightRecord, cal: Calendar)
    requires st.weightHistory == []
    ensures AddWeightRecord(st, w, cal) == st.(weightHistory := [w], pet := WithWeight(st.pet, w.weight))
  {
    assert [] + [w] == [w];
    assert SortBy([w], WeightDate(cal)) == [w] by {
      assert [w][..0] == [];
    }
  }

  /** A second weight on another day, added after an earlier one or before a later one, lands in date order. */
  lemma AddSecondWeight(st: State, early: WeightRecord, late: WeightRecord, cal: Calendar)
    requires cal.time(early.date) < cal.time(late.date)
    requires cal.day(cal.time(early.date)) != cal.day(cal.time(late.date))
    requires st.weightHistory == [early] || st.weightHistory == [late]
    ensures var w := if st.weightHistory == [early] then late else early;
            AddWeightRecord(st, w, cal) == st.(weightHistory := [early, late], pet := WithWeight(st.pet, late.weight))
  {
    var h := st.weightHistory;
    var w := if h == [early] then late else early;
    assert !SameDayAs(w, cal)(h[0]);
    assert IndexWhere(h, SameDayAs(w, cal)) == -1;
    assert Find(h, SameDayAs(w, cal)) == None;
    SortPair(early, late, WeightDate(cal));
    if h == [early] {
      assert h + [w] == [early, late];
    } else {
      assert h + [w] == [late, early];
    }
    assert Pushed(h, w, WeightDate(cal)) == [early, late];
  }

  /** Two weights added in either order: the pet weighs the March one, and the progression is 24%. */
  lemma WeightScenario(cal: Calendar)
    requires cal.time(January.date) < cal.time(March.date)
    requires cal.day(cal.time(January.date)) != cal.day(cal.time(March.date))
    ensures var st := AddWeightRecord(AddWeightRecord(Initial.(pet := Some(Rex)), January, cal), March, cal);
            st.pet.value.weight == 6.2 && WeightProgression(st, cal) == Some(Percent(24.0))
    ensures var st := AddWeightRecord(AddWeightRecord(Initial.(pet := Some(Rex)), March, cal), January, cal);
            st.pet.value.weight == 6.2 && WeightProgression(st, cal) == Some(Percent(24.0))
  {
    var st0 := Initial.(pet := Some(Rex));
    AddFirstWeight(st0, January, cal);
    AddFirstWeight(st0, March, cal);
    var a := AddWeightRecord(st0, January, cal);
    var b := AddWeightRecord(st0, March, cal);
    AddSecondWeight(a, January, March, cal);
    AddSecondWeight(b, January, March, cal);
    var done := Initial.(pet := Some(Rex.(weight := 6.2)), weightHistory := [January, March]);
    assert AddWeightRecord(a, March, cal) == done;
    assert AddWeightRecord(b, January, cal) == done;
    SortPair(January, March, WeightDate(cal));
    assert Change(5.0, 6.2) == Percent(24.0);
  }

  /** Deleting the only weight record: the pet's weight goes back to 0 and there is no latest weight. */
  lemma DeleteOnlyWeightScenario(w: WeightRecord, cal: Calendar)
    ensures var st := DeleteWeightRecord(Initial.(pet := Some(Rex), weightHistory := [w]), w.id);
            st.pet.value.weight == 0.0 && LatestWeight(st, cal) == None
  {
    var st := Initial.(pet := Some(Rex), weightHistory := [w]);
    assert !UnknownId(st.weightHistory, w.id, WeightId);
    assert Removed([w], w.id, WeightId) == [];
  }

  // ---------------------------------------------------------------- findings

  const Stale: WeightRecord := WeightRecord("w2", "2023-12-01", 7.0, None)

  /** January then March, with the pet at the March weight: a state that keeps the invariant. */
  lemma TwoWeightsKeepInvariant(cal: Calendar)
    requires cal.time(January.date) < cal.time(March.date)
    ensures Invariant(Initial.(pet := Some(Rex.(weight := 6.2)), weightHistory := [January, March]), cal)
  {
    assert WeightDate(cal)(January) <= WeightDate(cal)(March);
  }

  /** Moving March's record to December: it is found at index 1 and sorts before January. */
  lemma StaleUpdateReorders(cal: Calendar)
    requires cal.time(Stale.date) < cal.time(January.date)
    ensures IndexWhere([January, March], IdIs(WeightId, "w2")) == 1
    ensures ReplacedSorted([January, March], "w2", Stale, WeightId, WeightDate(cal)) == [Stale, January]
  {
    var h := [January, March];
    assert WeightId(January) == "w1" && WeightId(March) == "w2";
    assert !IdIs(WeightId, "w2")(h[0]) && IdIs(WeightId, "w2")(h[1]);
    assert h[1 := Stale] == [January, Stale];
    SortPair(Stale, January, WeightDate(cal));
  }

  /**
   * `updateWeightRecord` as written: moving the last record to an earlier date
   * gives the pet that record's weight although it is no longer the latest.
   */
  lemma UpdateWeightRecordCanDesync(cal: Calendar)
    requires cal.time(Stale.date) < cal.time(January.date) < cal.time(March.date)
    ensures var st := Initial.(pet := Some(Rex.(weight := 6.2)), weightHistory := [January, March]);
            Invariant(st, cal) && !WeightSynced(UpdateWeightRecord(st, "w2", Stale, cal))
  {
    TwoWeightsKeepInvariant(cal);
    StaleUpdateReorders(cal);
    var st := Initial.(pet := Some(Rex.(weight := 6.2)), weightHistory := [January, March]);
    var after := UpdateWeightRecord(st, "w2", Stale, cal);
    assert after.pet == Some(Rex.(weight := 7.0));
  }

  const Booster: Vaccine := Vaccine("v1", "Rage", "2024-01-10", "2025-01-10", "", "")
  const Leish: Vaccine := Vaccine("v2", "Leishmaniose", "2024-02-10", "2025-02-10", "", "")

  /** `updateVaccine` as written: moving the first vaccine past the second leaves the list out of date order. */
  lemma UpdateVaccineCanUnsort(cal: Calendar)
    requires cal.time(Booster.date) < cal.time(Leish.date) < cal.time("2024-03-10")
    ensures var st := Initial.(vaccines := [Booster, Leish]);
            Invariant(st, cal) && !Invariant(UpdateVaccine(st, "v1", Booster.(date := "2024-03-10")), cal)
  {
    var st := Initial.(vaccines := [Booster, Leish]);
    assert FirstWithId(st.vaccines, "v1", VaccineId, 0);
    var after := UpdateVaccine(st, "v1", Booster.(date := "2024-03-10"));
    assert after.vaccines == [Booster.(date := "2024-03-10"), Leish];
    assert !(VaccineDate(cal)(after.vaccines[0]) <= VaccineDate(cal)(after.vaccines[1]));
  }
}
