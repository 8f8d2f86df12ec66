/** The two collections the controllers work on, held in memory: dogs and food items by
    identifier. The identifier-format check (`mongoose.Types.ObjectId.isValid`) is a
    capability the store is constructed with and is never looked into. */
module Database {
  import opened Envelope
  import opened DogSchema
  import opened FoodSchema

  class Store {
    /** Whether a string is a well-formed record key. */
    const IsValidId: Id -> bool
    var dogs: map<Id, Dog>
    var foods: map<Id, Food>

    /** Every stored document satisfies its schema. */
    ghost predicate Valid()
      reads this
    {
      && (forall id :: id in dogs ==> ValidDog(dogs[id]))
      && (forall id :: id in foods ==> ValidFood(foods[id]))
    }

    constructor (isValidId: Id -> bool)
      ensures IsValidId == isValidId
      ensures dogs == map[] && foods == map[]
      ensures Valid()
    {
      IsValidId := isValidId;
      dogs := map[];
      foods := map[];
    }
  }
}
