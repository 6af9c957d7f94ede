/** The records the pet store keeps (src/types/index.ts). Dates are kept as the text the UI supplies. */
module PetTypes {
  import opened Wrappers

  datatype Owner = Owner(name: string, phone: string, address: string)

  datatype Pet = Pet(
    id: string,
    name: string,
    photo: string,
    breed: string,
    birthDate: string,
    weight: real,
    owner: Owner,
    color: string,
    size: string)

  datatype Vaccine = Vaccine(
    id: string,
    name: string,
    date: string,
    nextDate: string,
    description: string,
    veterinarian: string)

  datatype WeightRecord = WeightRecord(id: string, date: string, weight: real, notes: Option<string>)

  /** `'incident' | 'illness' | 'checkup'` */
  datatype HealthKind = Incident | Illness | Checkup

  datatype HealthRecord = HealthRecord(
    id: string,
    date: string,
    kind: HealthKind,
    title: string,
    description: string,
    treatment: Option<string>,
    veterinarian: Option<string>)

  /** `'breakfast' | 'lunch' | 'dinner' | 'snack'` */
  datatype MealType = Breakfast | Lunch | Dinner | Snack

  /** `'g' | 'kg' | 'portion'` */
  datatype FoodUnit = Grams | Kilograms | Portion

  datatype FoodLog = FoodLog(
    id: string,
    date: string,
    meal: MealType,
    food: string,
    quantity: real,
    unit: FoodUnit,
    notes: Option<string>)
}
