/**
 * The pet store's state as a value, the effect of each store action on it,
 * and the getters, which are pure views of it (src/stores/pet.ts).
 */
module PetState {
  import opened Wrappers
  import opened Lists
  import opened StableSort
  import opened PetTypes

  /**
   * The host's date handling: `time(text)` is `new Date(text).getTime()` and
   * `day(t)` identifies the local calendar day of instant `t`, as compared
   * through `toDateString()`.
   */
  datatype Calendar = Calendar(time: string -> int, day: int -> int)

  /** `PetState`: one optional pet and four flat record lists. */
  datatype State = State(
    pet: Option<Pet>,
    vaccines: seq<Vaccine>,
    weightHistory: seq<WeightRecord>,
    healthRecords: seq<HealthRecord>,
    foodLogs: seq<FoodLog>)

  const Initial: State := State(None, [], [], [], [])

  // ---------------------------------------------------------------- sort keys and lookups

  function VaccineDate(cal: Calendar): Vaccine -> int { (v: Vaccine) => cal.time(v.date) }
  function VaccineNextDate(cal: Calendar): Vaccine -> int { (v: Vaccine) => cal.time(v.nextDate) }
  function WeightDate(cal: Calendar): WeightRecord -> int { (w: WeightRecord) => cal.time(w.date) }
  /** The key of the newest-first sort in `getLatestWeight`. */
  function WeightDateNewestFirst(cal: Calendar): WeightRecord -> int { (w: WeightRecord) => -cal.time(w.date) }
  function HealthDate(cal: Calendar): HealthRecord -> int { (h: HealthRecord) => cal.time(h.date) }
  function FoodDate(cal: Calendar): FoodLog -> int { (f: FoodLog) => cal.time(f.date) }

  /** The calendar day a weight record falls on. */
  function WeightDay(cal: Calendar): WeightRecord -> int { (w: WeightRecord) => cal.day(cal.time(w.date)) }
  /** What makes two vaccines duplicates: the same name and the same raw date text. */
  function NameAndDate(v: Vaccine): (string, string) { (v.name, v.date) }

  function VaccineId(v: Vaccine): string { v.id }
  function WeightId(w: WeightRecord): string { w.id }
  function HealthId(h: HealthRecord): string { h.id }
  function FoodId(f: FoodLog): string { f.id }

  function IdIs<T>(idOf: T -> string, id: string): T -> bool { x => idOf(x) == id }
  function IdIsNot<T>(idOf: T -> string, id: string): T -> bool { x => idOf(x) != id }

  /** `i` is the index `findIndex(x => x.id === id)` returns. */
  predicate FirstWithId<T>(s: seq<T>, id: string, idOf: T -> string, i: int) {
    0 <= i < |s| && idOf(s[i]) == id && forall j :: 0 <= j < i ==> idOf(s[j]) != id
  }

  predicate UnknownId<T>(s: seq<T>, id: string, idOf: T -> string) {
    forall j :: 0 <= j < |s| ==> idOf(s[j]) != id
  }

  // ---------------------------------------------------------------- list updates shared by the actions

  /** `push(x)` followed by `sort` ascending by date. */
  function Pushed<T>(s: seq<T>, x: T, key: T -> int): (r: seq<T>)
    ensures SortedBy(r, key)
    ensures multiset(r) == multiset(s) + multiset{x}
    ensures |r| == |s| + 1
  {
    SortBy(s + [x], key)
  }

  /** `findIndex` by id, then `s[index] = x` when the id is known; no re-sort. */
  function Replaced<T>(s: seq<T>, id: string, x: T, idOf: T -> string): (r: seq<T>)
    ensures UnknownId(s, id, idOf) ==> r == s
    ensures forall i :: FirstWithId(s, id, idOf, i) ==> r == s[i := x]
  {
    var i := IndexWhere(s, IdIs(idOf, id));
    if i == -1 then s else s[i := x]
  }

  /** `findIndex` by id, then `s[index] = x` and `sort` ascending by date when the id is known. */
  function ReplacedSorted<T>(s: seq<T>, id: string, x: T, idOf: T -> string, key: T -> int): (r: seq<T>)
    ensures UnknownId(s, id, idOf) ==> r == s
    ensures forall i :: FirstWithId(s, id, idOf, i) ==>
              SortedBy(r, key) && multiset(r) == multiset(s) - multiset{s[i]} + multiset{x}
  {
    var i := IndexWhere(s, IdIs(idOf, id));
    IndexWhereFindsId(s, id, idOf);
    if i == -1 then s
    else
      UpdateMultiset(s, i, x);
      SortBy(s[i := x], key)
  }

  /** `findIndex` by id returns -1 for an unknown id and otherwise the first index holding it. */
  lemma IndexWhereFindsId<T>(s: seq<T>, id: string, idOf: T -> string)
    ensures UnknownId(s, id, idOf) <==> IndexWhere(s, IdIs(idOf, id)) == -1
    ensures forall i :: FirstWithId(s, id, idOf, i) ==> i == IndexWhere(s, IdIs(idOf, id))
  {
    var i := IndexWhere(s, IdIs(idOf, id));
    forall j | FirstWithId(s, id, idOf, j) ensures j == i {
      assert IdIs(idOf, id)(s[j]);
      if i != -1 {
        assert IdIs(idOf, id)(s[i]);
      }
    }
  }

  lemma UpdateMultiset<T>(s: seq<T>, i: int, x: T)
    requires 0 <= i < |s|
    ensures multiset(s[i := x]) == multiset(s) - multiset{s[i]} + multiset{x}
  {
    assert s == s[..i] + [s[i]] + s[i + 1..];
    assert s[i := x] == s[..i] + [x] + s[i + 1..];
  }

  /** `filter(x => x.id !== id)`. */
  function Removed<T>(s: seq<T>, id: string, idOf: T -> string): (r: seq<T>)
    ensures forall i :: 0 <= i < |r| ==> idOf(r[i]) != id
    ensures multiset(r) <= multiset(s)
    ensures forall j :: 0 <= j < |s| && idOf(s[j]) != id ==> multiset(r)[s[j]] == multiset(s)[s[j]]
    ensures SubsequenceOf(r, s)
    ensures |r| == |s| <==> UnknownId(s, id, idOf)
    ensures UnknownId(s, id, idOf) ==> r == s
  {
    var p := IdIsNot(idOf, id);
    FilterSubMultiset(s, p);
    FilterKeepsAllSatisfying(s, p);
    FilterKeepsOrder(s, p);
    FilterRemovesNothing(s, p);
    Filter(s, p)
  }

  // ---------------------------------------------------------------- the pet's derived weight

  /** The weight the pet should show: the last record's, or 0 without records. */
  function LastWeight(h: seq<WeightRecord>): real {
    if h == [] then 0.0 else h[|h| - 1].weight
  }

  /** `if (this.pet) this.pet.weight = w`. */
  function WithWeight(pet: Option<Pet>, w: real): Option<Pet> {
    if pet.Some? then Some(pet.value.(weight := w)) else None
  }

  /** The pet's weight agrees with the weight history. */
  predicate WeightSynced(st: State) {
    st.pet.Some? ==> st.pet.value.weight == LastWeight(st.weightHistory)
  }

  /** What every action is meant to keep: four date-ordered lists and a synchronised pet weight. */
  predicate Invariant(st: State, cal: Calendar) {
    && SortedBy(st.vaccines, VaccineDate(cal))
    && SortedBy(st.weightHistory, WeightDate(cal))
    && SortedBy(st.healthRecords, HealthDate(cal))
    && SortedBy(st.foodLogs, FoodDate(cal))
    && WeightSynced(st)
  }

  /** What the duplicate checks of the add actions are meant to keep. */
  predicate NoDuplicates(st: State, cal: Calendar) {
    DistinctBy(st.vaccines, NameAndDate) && DistinctBy(st.weightHistory, WeightDay(cal))
  }

  // ---------------------------------------------------------------- vaccine actions

  function SameVaccine(v: Vaccine): Vaccine -> bool { (u: Vaccine) => u.name == v.name && u.date == v.date }

  predicate VaccineRecorded(vs: seq<Vaccine>, v: Vaccine) {
    exists i :: 0 <= i < |vs| && vs[i].name == v.name && vs[i].date == v.date
  }

  /** `addVaccine` */
  function AddVaccine(st: State, v: Vaccine, cal: Calendar): (r: State)
    ensures r.(vaccines := st.vaccines) == st
    ensures VaccineRecorded(st.vaccines, v) ==> r == st
    ensures !VaccineRecorded(st.vaccines, v) ==>
              SortedBy(r.vaccines, VaccineDate(cal)) && multiset(r.vaccines) == multiset(st.vaccines) + multiset{v}
  {
    if Find(st.vaccines, SameVaccine(v)).Some? then st
    else st.(vaccines := Pushed(st.vaccines, v, VaccineDate(cal)))
  }

  /** `updateVaccine`, as written: the entry is replaced where it stands. */
  function UpdateVaccine(st: State, id: string, v: Vaccine): (r: State)
    ensures r.(vaccines := st.vaccines) == st
    ensures UnknownId(st.vaccines, id, VaccineId) ==> r == st
    ensures forall i :: FirstWithId(st.vaccines, id, VaccineId, i) ==> r.vaccines == st.vaccines[i := v]
  {
    st.(vaccines := Replaced(st.vaccines, id, v, VaccineId))
  }

  /** `deleteVaccine` */
  function DeleteVaccine(st: State, id: string): (r: State)
    ensures r.(vaccines := st.vaccines) == st
    ensures forall i :: 0 <= i < |r.vaccines| ==> r.vaccines[i].id != id
    ensures forall j :: 0 <= j < |st.vaccines| && st.vaccines[j].id != id ==>
              multiset(r.vaccines)[st.vaccines[j]] == multiset(st.vaccines)[st.vaccines[j]]
    ensures multiset(r.vaccines) <= multiset(st.vaccines) && SubsequenceOf(r.vaccines, st.vaccines)
  {
    st.(vaccines := Removed(st.vaccines, id, VaccineId))
  }

  // ---------------------------------------------------------------- weight actions

  function SameDayAs(w: WeightRecord, cal: Calendar): WeightRecord -> bool {
    (u: WeightRecord) => cal.day(cal.time(u.date)) == cal.day(cal.time(w.date))
  }

  predicate DayRecorded(h: seq<WeightRecord>, w: WeightRecord, cal: Calendar) {
    exists i :: 0 <= i < |h| && cal.day(cal.time(h[i].date)) == cal.day(cal.time(w.date))
  }

  /** `addWeightRecord` */
  function AddWeightRecord(st: State, w: WeightRecord, cal: Calendar): (r: State)
    ensures r.(weightHistory := st.weightHistory, pet := st.pet) == st
    ensures DayRecorded(st.weightHistory, w, cal) ==> r == st
    ensures !DayRecorded(st.weightHistory, w, cal) ==>
              && SortedBy(r.weightHistory, WeightDate(cal))
              && multiset(r.weightHistory) == multiset(st.weightHistory) + multiset{w}
              && r.pet.Some? == st.pet.Some?
              && (r.pet.Some? ==> r.pet.value == st.pet.value.(weight := LastWeight(r.weightHistory)))
  {
    if Find(st.weightHistory, SameDayAs(w, cal)).Some? then st
    else
      var h := Pushed(st.weightHistory, w, WeightDate(cal));
      st.(weightHistory := h, pet := WithWeight(st.pet, h[|h| - 1].weight))
  }

  /**
   * `updateWeightRecord`, as written: the pet takes the new weight when the
   * record's index BEFORE the re-sort was the last one.
   */
  function UpdateWeightRecord(st: State, id: string, w: WeightRecord, cal: Calendar): (r: State)
    ensures r.(weightHistory := st.weightHistory, pet := st.pet) == st
    ensures UnknownId(st.weightHistory, id, WeightId) ==> r == st
    ensures forall i :: FirstWithId(st.weightHistory, id, WeightId, i) ==>
              && SortedBy(r.weightHistory, WeightDate(cal))
              && multiset(r.weightHistory) == multiset(st.weightHistory) - multiset{st.weightHistory[i]} + multiset{w}
              && r.pet == if i == |st.weightHistory| - 1 then WithWeight(st.pet, w.weight) else st.pet
  {
    var i := IndexWhere(st.weightHistory, IdIs(WeightId, id));
    var h := ReplacedSorted(st.weightHistory, id, w, WeightId, WeightDate(cal));
    st.(weightHistory := h, pet := if st.pet.Some? && i != -1 && i == |h| - 1 then WithWeight(st.pet, w.weight) else st.pet)
  }

  /** `updateWeightRecord` as evidently intended: the pet takes the weight of the record that is last after sorting. */
  function UpdateWeightRecordSynced(st: State, id: string, w: WeightRecord, cal: Calendar): (r: State)
    ensures r.(weightHistory := st.weightHistory, pet := st.pet) == st
    ensures UnknownId(st.weightHistory, id, WeightId) ==> r == st
    ensures !UnknownId(st.weightHistory, id, WeightId) ==>
              SortedBy(r.weightHistory, WeightDate(cal)) && WeightSynced(r)
    ensures forall i :: FirstWithId(st.weightHistory, id, WeightId, i) ==>
              && multiset(r.weightHistory) == multiset(st.weightHistory) - multiset{st.weightHistory[i]} + multiset{w}
              && r.pet.Some? == st.pet.Some?
              && (r.pet.Some? ==> r.pet.value == st.pet.value.(weight := LastWeight(r.weightHistory)))
  {
    var i := IndexWhere(st.weightHistory, IdIs(WeightId, id));
    IndexWhereFindsId(st.weightHistory, id, WeightId);
    if i == -1 then st
    else
      var h := ReplacedSorted(st.weightHistory, id, w, WeightId, WeightDate(cal));
      assert FirstWithId(st.weightHistory, id, WeightId, i);
      assert |h| == |st.weightHistory| by {
        assert |multiset(h)| == |multiset(st.weightHistory)|;
      }
      st.(weightHistory := h, pet := WithWeight(st.pet, h[|h| - 1].weight))
  }

  /** `deleteWeightRecord` */
  function DeleteWeightRecord(st: State, id: string): (r: State)
    ensures r.(weightHistory := st.weightHistory, pet := st.pet) == st
    ensures r.weightHistory == Removed(st.weightHistory, id, WeightId)
    ensures |r.weightHistory| < |st.weightHistory| && r.weightHistory != [] ==>
              r.pet == WithWeight(st.pet, r.weightHistory[|r.weightHistory| - 1].weight)
    ensures r.weightHistory == [] ==> r.pet == WithWeight(st.pet, 0.0)
    ensures |r.weightHistory| == |st.weightHistory| && r.weightHistory != [] ==> r == st
  {
    var h := Removed(st.weightHistory, id, WeightId);
    var pet :=
      if st.pet.Some? && |st.weightHistory| != |h| && |h| > 0 then WithWeight(st.pet, h[|h| - 1].weight)
      else if st.pet.Some? && |h| == 0 then WithWeight(st.pet, 0.0)
      else st.pet;
    st.(weightHistory := h, pet := pet)
  }

  // ---------------------------------------------------------------- health record and food log actions

  /** `addHealthRecord` */
  function AddHealthRecord(st: State, h: HealthRecord, cal: Calendar): (r: State)
    ensures r.(healthRecords := st.healthRecords) == st
    ensures SortedBy(r.healthRecords, HealthDate(cal))
    ensures multiset(r.healthRecords) == multiset(st.healthRecords) + multiset{h}
  {
    st.(healthRecords := Pushed(st.healthRecords, h, HealthDate(cal)))
  }

  /** `updateHealthRecord` */
  function UpdateHealthRecord(st: State, id: string, h: HealthRecord, cal: Calendar): (r: State)
    ensures r.(healthRecords := st.healthRecords) == st
    ensures UnknownId(st.healthRecords, id, HealthId) ==> r == st
    ensures forall i :: FirstWithId(st.healthRecords, id, HealthId, i) ==>
              SortedBy(r.healthRecords, HealthDate(cal))
              && multiset(r.healthRecords) == multiset(st.healthRecords) - multiset{st.healthRecords[i]} + multiset{h}
  {
    st.(healthRecords := ReplacedSorted(st.healthRecords, id, h, HealthId, HealthDate(cal)))
  }

  /** `deleteHealthRecord` */
  function DeleteHealthRecord(st: State, id: string): (r: State)
    ensures r.(healthRecords := st.healthRecords) == st
    ensures forall i :: 0 <= i < |r.healthRecords| ==> r.healthRecords[i].id != id
    ensures forall j :: 0 <= j < |st.healthRecords| && st.healthRecords[j].id != id ==>
              multiset(r.healthRecords)[st.healthRecords[j]] == multiset(st.healthRecords)[st.healthRecords[j]]
    ensures multiset(r.healthRecords) <= multiset(st.healthRecords) && SubsequenceOf(r.healthRecords, st.healthRecords)
  {
    st.(healthRecords := Removed(st.healthRecords, id, HealthId))
  }

  /** `addFoodLog` */
  function AddFoodLog(st: State, f: FoodLog, cal: Calendar): (r: State)
    ensures r.(foodLogs := st.foodLogs) == st
    ensures SortedBy(r.foodLogs, FoodDate(cal))
    ensures multiset(r.foodLogs) == multiset(st.foodLogs) + multiset{f}
  {
    st.(foodLogs := Pushed(st.foodLogs, f, FoodDate(cal)))
  }

  /** `updateFoodLog` */
  function UpdateFoodLog(st: State, id: string, f: FoodLog, cal: Calendar): (r: State)
    ensures r.(foodLogs := st.foodLogs) == st
    ensures UnknownId(st.foodLogs, id, FoodId) ==> r == st
    ensures forall i :: FirstWithId(st.foodLogs, id, FoodId, i) ==>
              SortedBy(r.foodLogs, FoodDate(cal))
              && multiset(r.foodLogs) == multiset(st.foodLogs) - multiset{st.foodLogs[i]} + multiset{f}
  {
    st.(foodLogs := ReplacedSorted(st.foodLogs, id, f, FoodId, FoodDate(cal)))
  }

  /** `deleteFoodLog` */
  function DeleteFoodLog(st: State, id: string): (r: State)
    ensures r.(foodLogs := st.foodLogs) == st
    ensures forall i :: 0 <= i < |r.foodLogs| ==> r.foodLogs[i].id != id
    ensures forall j :: 0 <= j < |st.foodLogs| && st.foodLogs[j].id != id ==>
              multiset(r.foodLogs)[st.foodLogs[j]] == multiset(st.foodLogs)[st.foodLogs[j]]
    ensures multiset(r.foodLogs) <= multiset(st.foodLogs) && SubsequenceOf(r.foodLogs, st.foodLogs)
  {
    st.(foodLogs := Removed(st.foodLogs, id, FoodId))
  }

  /** `updateVaccine` as evidently intended: re-sorted like the other update actions. */
  function UpdateVaccineSorted(st: State, id: string, v: Vaccine, cal: Calendar): (r: State)
    ensures r.(vaccines := st.vaccines) == st
    ensures UnknownId(st.vaccines, id, VaccineId) ==> r == st
    ensures forall i :: FirstWithId(st.vaccines, id, VaccineId, i) ==>
              SortedBy(r.vaccines, VaccineDate(cal))
              && multiset(r.vaccines) == multiset(st.vaccines) - multiset{st.vaccines[i]} + multiset{v}
  {
    st.(vaccines := ReplacedSorted(st.vaccines, id, v, VaccineId, VaccineDate(cal)))
  }

  // ---------------------------------------------------------------- getters

  function DueAfter(today: int, cal: Calendar): Vaccine -> bool { (v: Vaccine) => cal.time(v.nextDate) > today }

  /** `upcomingVaccines`, where `today` is the instant `new Date()` reads. */
  function UpcomingVaccines(st: State, today: int, cal: Calendar): (r: seq<Vaccine>)
    ensures SortedBy(r, VaccineNextDate(cal))
    ensures forall i :: 0 <= i < |r| ==> cal.time(r[i].nextDate) > today
    ensures multiset(r) <= multiset(st.vaccines)
    ensures forall j :: 0 <= j < |st.vaccines| && cal.time(st.vaccines[j].nextDate) > today ==>
              multiset(r)[st.vaccines[j]] == multiset(st.vaccines)[st.vaccines[j]]
  {
    var due := Filter(st.vaccines, DueAfter(today, cal));
    FilterSubMultiset(st.vaccines, DueAfter(today, cal));
    FilterKeepsAllSatisfying(st.vaccines, DueAfter(today, cal));
    SortByKeepsAll(due, VaccineNextDate(cal), DueAfter(today, cal));
    SortBy(due, VaccineNextDate(cal))
  }

  /** `sortedWeightHistory`: a sorted copy; the state itself is not touched. */
  function SortedWeightHistory(st: State, cal: Calendar): (r: seq<WeightRecord>)
    ensures SortedBy(r, WeightDate(cal))
    ensures multiset(r) == multiset(st.weightHistory)
    ensures forall k :: Filter(r, HasKey(WeightDate(cal), k)) == Filter(st.weightHistory, HasKey(WeightDate(cal), k))
  {
    SortByStableAll(st.weightHistory, WeightDate(cal));
    SortBy(st.weightHistory, WeightDate(cal))
  }

  /** `Math.min(...weights)` */
  function MinWeight(h: seq<WeightRecord>): (m: real)
    requires h != []
    ensures forall i :: 0 <= i < |h| ==> m <= h[i].weight
    ensures exists i :: 0 <= i < |h| && h[i].weight == m
  {
    if |h| == 1 then h[0].weight
    else
      var rest := MinWeight(h[1..]);
      if h[0].weight <= rest then h[0].weight else rest
  }

  /** `Math.max(...weights)` */
  function MaxWeight(h: seq<WeightRecord>): (m: real)
    requires h != []
    ensures forall i :: 0 <= i < |h| ==> h[i].weight <= m
    ensures exists i :: 0 <= i < |h| && h[i].weight == m
  {
    if |h| == 1 then h[0].weight
    else
      var rest := MaxWeight(h[1..]);
      if rest <= h[0].weight then h[0].weight else rest
  }

  datatype Range = Range(min: real, max: real)

  /** `weightRange` */
  function WeightRange(st: State): (r: Range)
    ensures st.weightHistory == [] ==> r == Range(0.0, 0.0)
    ensures st.weightHistory != [] ==>
              && (forall i :: 0 <= i < |st.weightHistory| ==> r.min <= st.weightHistory[i].weight <= r.max)
              && (exists i :: 0 <= i < |st.weightHistory| && st.weightHistory[i].weight == r.min)
              && (exists i :: 0 <= i < |st.weightHistory| && st.weightHistory[i].weight == r.max)
  {
    if st.weightHistory == [] then Range(0.0, 0.0)
    else Range(MinWeight(st.weightHistory), MaxWeight(st.weightHistory))
  }

  /** Record `i` is dated no earlier than any other. */
  predicate IsLatest(h: seq<WeightRecord>, i: int, cal: Calendar) {
    0 <= i < |h| && forall j :: 0 <= j < |h| ==> cal.time(h[j].date) <= cal.time(h[i].date)
  }

  /** Record `i` is dated no later than any other. */
  predicate IsEarliest(h: seq<WeightRecord>, i: int, cal: Calendar) {
    0 <= i < |h| && forall j :: 0 <= j < |h| ==> cal.time(h[i].date) <= cal.time(h[j].date)
  }

  /** `getLatestWeight`: sorts a copy newest first and reads the head. */
  function LatestWeight(st: State, cal: Calendar): (r: Option<real>)
    ensures r.None? <==> st.weightHistory == []
    ensures r.Some? ==> exists i :: IsLatest(st.weightHistory, i, cal) && st.weightHistory[i].weight == r.value
  {
    if st.weightHistory == [] then None
    else
      var newest := SortBy(st.weightHistory, WeightDateNewestFirst(cal))[0];
      SortByHeadIsLeast(st.weightHistory, WeightDateNewestFirst(cal));
      Some(newest.weight)
  }

  /** A percentage, or the `Infinity`/`NaN` that dividing by a zero first weight yields. */
  datatype Progression = Percent(value: real) | NonFinite

  function Change(first: real, last: real): Progression {
    if first == 0.0 then NonFinite else Percent((last - first) / first * 100.0)
  }

  /** `calculateWeightProgression` */
  function WeightProgression(st: State, cal: Calendar): (r: Option<Progression>)
    ensures r.None? <==> |st.weightHistory| < 2
    ensures r.Some? ==> exists i, j ::
              IsEarliest(st.weightHistory, i, cal) && IsLatest(st.weightHistory, j, cal)
              && r.value == Change(st.weightHistory[i].weight, st.weightHistory[j].weight)
  {
    var h := st.weightHistory;
    if |h| < 2 then None
    else
      var sorted := SortBy(h, WeightDate(cal));
      SortByHeadIsLeast(h, WeightDate(cal));
      SortByLastIsGreatest(h, WeightDate(cal));
      Some(Change(sorted[0].weight, sorted[|sorted| - 1].weight))
  }
}
