/** Request sequences whose outcome follows from the handlers' contracts alone. */
module Scenarios {
  import opened Wrappers
  import opened JsStrings
  import opened Messages
  import opened Envelope
  import opened DogSchema
  import opened FoodSchema
  import opened Database
  import opened DogController
  import opened FoodController

  /** Creating a dog and fetching it by the identifier it was given returns the created
      dog, whose food list is the supplied one or empty. */
  method CreateThenGetDog(db: Store, body: DogPayload, newId: Id) returns (created: Reply<Doc<Dog>>, fetched: Reply<Doc<Dog>>)
    requires db.Valid() && db.IsValidId(newId)
    modifies db
    ensures created.status == Created ==>
              && created.data.Some?
              && fetched == Reply(Ok, DogFound, created.data)
              && fetched.data.value.record.foodList == body.foodList.GetOr([])
  {
    created := CreateDog(db, body, newId);
    fetched := GetDogById(db, newId);
  }

  /** A successful food creation is visible from the dog: fetching it afterwards shows
      the new item's identifier at the end of its food list. */
  method CreateFoodThenGetDog(db: Store, body: FoodPayload, newId: Id) returns (created: Reply<Doc<Food>>, fetched: Option<Reply<Doc<Dog>>>)
    requires db.Valid()
    modifies db
    ensures fetched.Some? <==> created.status == Created
    ensures fetched.Some? ==>
              && body.dog.Some? && fetched.value.status == Ok && fetched.value.data.Some?
              && fetched.value.data.value.id == body.dog.value
              && |fetched.value.data.value.record.foodList| > 0
              && fetched.value.data.value.record.foodList[|fetched.value.data.value.record.foodList| - 1] == newId
  {
    created := CreateFood(db, body, newId, false);
    fetched := None;
    if created.status == Created {
      var reply := GetDogById(db, body.dog.value);
      fetched := Some(reply);
    }
  }

  /** Updating only the flavor, then fetching the item, shows the new flavor as the `trim`
      setter stores it and every other field as it was. */
  method UpdateFlavorThenGet(db: Store, id: Id, flavor: string) returns (updated: Reply<Doc<Food>>, fetched: Reply<Doc<Food>>)
    requires db.Valid() && db.IsValidId(id) && id in db.foods
    requires Trim(flavor) != ""
    modifies db
    ensures updated.status == Ok
    ensures fetched == Reply(Ok, FoodFound, Some(Doc(id, old(db.foods)[id].(flavor := Trim(flavor)))))
  {
    MergeFoodFlavorOnly(db.foods[id], flavor);
    updated := UpdateFood(db, id, FoodPayload(None, None, Some(flavor), None));
    fetched := GetFoodById(db, id);
  }
}
